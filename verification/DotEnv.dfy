/** The .env file of install.sh: persisted_value reads one key, and the installer rewrites
    the keys it manages. */
module DotEnv {
  import opened Wrappers
  import opened Text

  // ----- lines -----

  /** Text mode turns each of the three line endings into a newline. */
  function Translated(s: string): string {
    if s == "" then ""
    else if s[0] == '\r' then "\n" + Translated(if |s| > 1 && s[1] == '\n' then s[2..] else s[1..])
    else [s[0]] + Translated(s[1..])
  }

  /** The lines of a file without their newlines. */
  function Lines(text: string): seq<string> {
    var parts := Split(Translated(text), '\n');
    if parts[|parts| - 1] == "" then parts[..|parts| - 1] else parts
  }

  /** "\n".join(lines) + "\n". */
  function FileText(lines: seq<string>): string
    requires lines != []
  {
    Join(lines, '\n') + "\n"
  }

  predicate IsLine(line: string) {
    '\n' !in line && '\r' !in line
  }

  lemma {:induction false} TranslatedHasNoReturn(s: string)
    ensures '\r' !in Translated(s)
  {
    if s != "" {
      TranslatedHasNoReturn(if s[0] == '\r' && |s| > 1 && s[1] == '\n' then s[2..] else s[1..]);
    }
  }

  lemma {:induction false} TranslatedPlain(s: string)
    requires '\r' !in s
    ensures Translated(s) == s
  {
    if s != "" {
      assert s[0] in s;
      TranslatedPlain(s[1..]);
    }
  }

  lemma {:induction false} PiecesHaveNo(s: string, sep: char, c: char)
    requires c !in s
    ensures forall i :: 0 <= i < |Split(s, sep)| ==> c !in Split(s, sep)[i]
  {
    if s != "" {
      assert s[0] in s;
      PiecesHaveNo(s[1..], sep, c);
      var rest := Split(s[1..], sep);
      assert c !in rest[0];
    }
  }

  lemma LinesAreLines(text: string)
    ensures forall i :: 0 <= i < |Lines(text)| ==> IsLine(Lines(text)[i])
  {
    TranslatedHasNoReturn(text);
    PiecesHaveNo(Translated(text), '\n', '\r');
    SplitPieces(Translated(text), '\n');
  }

  lemma {:induction false} JoinHasNo(lines: seq<string>, c: char)
    requires lines != [] && c != '\n' && forall i :: 0 <= i < |lines| ==> c !in lines[i]
    ensures c !in Join(lines, '\n')
  {
    if |lines| > 1 {
      JoinHasNo(lines[1..], c);
    }
  }

  /** What is written is read back line by line. */
  lemma LinesOfText(lines: seq<string>)
    requires lines != [] && forall i :: 0 <= i < |lines| ==> IsLine(lines[i])
    ensures Lines(FileText(lines)) == lines
  {
    JoinHasNo(lines, '\r');
    TranslatedPlain(FileText(lines));
    SplitJoin(lines, '\n');
    SplitAt(Join(lines, '\n'), "", '\n');
    assert Join(lines, '\n') + "\n" + "" == FileText(lines);
  }

  // ----- texts with any line endings -----

  predicate Ending(e: string) {
    e == "\n" || e == "\r" || e == "\r\n"
  }

  /** Lines laid out with these endings between them; a text that ends with an ending has
      an empty last line. */
  function Laid(lines: seq<string>, ends: seq<string>): string
    requires |lines| == |ends| + 1
  {
    if ends == [] then lines[0] else lines[0] + ends[0] + Laid(lines[1..], ends[1..])
  }

  /** Lines and endings that can be told apart: a carriage return directly before a newline
      is one ending, not two. */
  ghost predicate Layout(lines: seq<string>, ends: seq<string>) {
    && |lines| == |ends| + 1
    && (forall i :: 0 <= i < |lines| ==> IsLine(lines[i]))
    && (forall i :: 0 <= i < |ends| ==> Ending(ends[i]))
    && (forall i :: 0 < i < |ends| && ends[i] == "\n" && lines[i] == "" ==> ends[i - 1] != "\r")
  }

  lemma LayoutTail(lines: seq<string>, ends: seq<string>)
    requires Layout(lines, ends) && ends != []
    ensures Layout(lines[1..], ends[1..])
  {
  }

  /** Every text is laid out in such a way. */
  lemma {:induction false} EveryTextIsLaid(text: string) returns (lines: seq<string>, ends: seq<string>)
    ensures Layout(lines, ends) && Laid(lines, ends) == text
  {
    if text == "" {
      lines, ends := [""], [];
    } else {
      var e := if text[0] == '\n' then "\n" else if text[0] != '\r' then ""
               else if |text| > 1 && text[1] == '\n' then "\r\n" else "\r";
      if e == "" {
        var rest, more := EveryTextIsLaid(text[1..]);
        lines, ends := [[text[0]] + rest[0]] + rest[1..], more;
        LaidLonger(text[0], rest, more);
      } else {
        var rest, more := EveryTextIsLaid(text[|e|..]);
        lines, ends := [""] + rest, [e] + more;
        assert text == "" + e + text[|e|..];
      }
    }
  }

  lemma LaidLonger(c: char, lines: seq<string>, ends: seq<string>)
    requires |lines| == |ends| + 1
    ensures Laid([[c] + lines[0]] + lines[1..], ends) == [c] + Laid(lines, ends)
  {
    var longer := [[c] + lines[0]] + lines[1..];
    if ends != [] {
      assert longer[1..] == lines[1..];
    }
  }

  lemma {:induction false} TranslatedAfter(line: string, rest: string)
    requires '\r' !in line
    ensures Translated(line + rest) == line + Translated(rest)
  {
    if line == "" {
      assert line + rest == rest;
    } else {
      assert line[0] in line && (line + rest)[1..] == line[1..] + rest;
      TranslatedAfter(line[1..], rest);
    }
  }

  lemma TranslatedEnding(e: string, rest: string)
    requires Ending(e) && (e == "\r" && rest != "" ==> rest[0] != '\n')
    ensures Translated(e + rest) == "\n" + Translated(rest)
  {
    var s := e + rest;
    assert s[1..] == if e == "\r\n" then "\n" + rest else rest;
    if e == "\r\n" {
      assert s[2..] == rest;
    }
  }

  lemma {:induction false} TranslatedLaid(lines: seq<string>, ends: seq<string>)
    requires Layout(lines, ends)
    ensures Translated(Laid(lines, ends)) == Join(lines, '\n')
  {
    TranslatedAfter(lines[0], "");
    assert lines[0] + "" == lines[0];
    if ends != [] {
      LayoutTail(lines, ends);
      TranslatedLaid(lines[1..], ends[1..]);
      LaidNext(lines, ends);
      var rest := Laid(lines[1..], ends[1..]);
      TranslatedEnding(ends[0], rest);
      TranslatedAfter(lines[0], ends[0] + rest);
      assert lines[0] + ends[0] + rest == lines[0] + (ends[0] + rest);
    }
  }

  lemma LaidNext(lines: seq<string>, ends: seq<string>)
    requires Layout(lines, ends) && ends != []
    ensures var rest := Laid(lines[1..], ends[1..]); ends[0] == "\r" && rest != "" ==> rest[0] != '\n'
  {
    assert IsLine(lines[1]);
    if |ends| > 1 && lines[1] == "" {
      assert Ending(ends[1]);
      assert Laid(lines[1..], ends[1..]) == ends[1] + Laid(lines[1..][1..], ends[1..][1..]);
    }
  }

  /** A layout as the lines that a loop over the file sees: all of them, but for an empty
      last one, which is only the end of the text. */
  function LoopLines(lines: seq<string>): seq<string>
    requires lines != []
  {
    if lines[|lines| - 1] == "" then lines[..|lines| - 1] else lines
  }

  /** Reading undoes every layout, whatever its endings and with or without a final one. */
  lemma LinesOfLaid(lines: seq<string>, ends: seq<string>)
    requires Layout(lines, ends)
    ensures Lines(Laid(lines, ends)) == LoopLines(lines)
  {
    TranslatedLaid(lines, ends);
    SplitJoin(lines, '\n');
  }

  // ----- one line -----

  function KeyOf(line: string): string {
    Trim(Split(line, '=')[0], PythonSpace)
  }

  /** line.partition("="): what follows the first separator, if there is one. */
  function ValueOf(line: string): Option<string> {
    var front := Split(line, '=')[0];
    if |front| < |line| then Some(line[|front| + 1..]) else None
  }

  predicate Supported(value: string) {
    value != "" && forall i :: 0 <= i < |value| ==> SupportedChar(value[i])
  }

  /** [A-Za-z0-9_./:@+-] */
  predicate SupportedChar(c: char) {
    || 'A' <= c <= 'Z' || 'a' <= c <= 'z' || '0' <= c <= '9'
    || c == '_' || c == '.' || c == '/' || c == ':' || c == '@' || c == '+' || c == '-'
  }

  // ----- reading -----

  /** Nothing is printed without a match, and an unsupported last match is an error. */
  datatype Reading = Absent | Value(value: string) | Unsupported

  predicate Matches(line: string, wanted: string) {
    ValueOf(line).Some? && KeyOf(line) == wanted
  }

  function LastMatch(lines: seq<string>, wanted: string): Option<string> {
    if lines == [] then None
    else if Matches(lines[|lines| - 1], wanted) then ValueOf(lines[|lines| - 1])
    else LastMatch(lines[..|lines| - 1], wanted)
  }

  function ReadingOf(m: Option<string>): Reading {
    if m.None? then Absent else if Supported(m.value) then Value(m.value) else Unsupported
  }

  function Read(content: Option<string>, wanted: string): Reading {
    ReadingOf(if content.None? then None else LastMatch(Lines(content.value), wanted))
  }

  // ----- rewriting -----

  datatype Managed = Managed(bind: string, port: string, uid: string, gid: string, config: string)

  const BIND := "BROWSERSTREAM_BIND_ADDRESS"
  const PORT := "BROWSERSTREAM_PORT"
  const UID := "BROWSERSTREAM_UID"
  const GID := "BROWSERSTREAM_GID"
  const CONFIG := "BROWSERSTREAM_CONFIG"

  predicate IsManaged(key: string) {
    key == BIND || key == PORT || key == UID || key == GID || key == CONFIG
  }

  function ValueFor(m: Managed, key: string): string
    requires IsManaged(key)
  {
    if key == BIND then m.bind else if key == PORT then m.port
    else if key == UID then m.uid else if key == GID then m.gid else m.config
  }

  predicate AllSupported(m: Managed) {
    Supported(m.bind) && Supported(m.port) && Supported(m.uid) && Supported(m.gid) && Supported(m.config)
  }

  function Entry(key: string, value: string): string {
    key + "=" + value
  }

  function Entries(m: Managed): seq<string> {
    [Entry(BIND, m.bind), Entry(PORT, m.port), Entry(UID, m.uid), Entry(GID, m.gid), Entry(CONFIG, m.config)]
  }

  function Unmanaged(lines: seq<string>): seq<string> {
    if lines == [] then []
    else
      var n := |lines| - 1;
      Unmanaged(lines[..n]) + if IsManaged(KeyOf(lines[n])) then [] else [lines[n]]
  }

  function OldLines(content: Option<string>): seq<string> {
    if content.None? then [] else Lines(content.value)
  }

  /** The rewritten file, or None for an unsupported value. */
  function Rewritten(content: Option<string>, m: Managed): Option<string> {
    if AllSupported(m) then Some(FileText(Unmanaged(OldLines(content)) + Entries(m))) else None
  }

  class EnvFile {
    var content: Option<string>

    constructor (content: Option<string>)
      ensures this.content == content
    {
      this.content := content;
    }

    method PersistedValue(wanted: string) returns (r: Reading)
      ensures r == Read(content, wanted)
    {
      if content.None? {
        return Absent;
      }
      var lines := Lines(content.value);
      var value: Option<string> := None;
      for i := 0 to |lines|
        invariant value == LastMatch(lines[..i], wanted)
      {
        assert lines[..i + 1][..i] == lines[..i];
        if ValueOf(lines[i]).Some? && KeyOf(lines[i]) == wanted {
          value := ValueOf(lines[i]);
        }
      }
      assert lines[..|lines|] == lines;
      if value.Some? {
        r := if Supported(value.value) then Value(value.value) else Unsupported;
      } else {
        r := Absent;
      }
    }

    /** An unsupported value ends the script before anything is written. */
    method Rewrite(m: Managed) returns (ok: bool)
      modifies this
      ensures ok <==> AllSupported(m)
      ensures content == if ok then Rewritten(old(content), m) else old(content)
    {
      hide Supported, KeyOf, IsManaged, FileText, Entry, Lines;
      var lines: seq<string> := [];
      if content.Some? {
        var was := Lines(content.value);
        for i := 0 to |was|
          invariant lines == Unmanaged(was[..i])
        {
          assert was[..i + 1][..i] == was[..i];
          if !IsManaged(KeyOf(was[i])) {
            lines := lines + [was[i]];
          }
        }
        assert was[..|was|] == was;
      }
      ghost var kept := lines;
      assert kept == Unmanaged(OldLines(content));
      var managed := [(BIND, m.bind), (PORT, m.port), (UID, m.uid), (GID, m.gid), (CONFIG, m.config)];
      for i := 0 to 5
        invariant lines == kept + Entries(m)[..i]
        invariant forall k :: 0 <= k < i ==> Supported(managed[k].1)
      {
        var (key, value) := managed[i];
        if !Supported(value) {
          return false;
        }
        lines := lines + [Entry(key, value)];
      }
      assert Supported(managed[0].1) && Supported(managed[1].1) && Supported(managed[2].1)
        && Supported(managed[3].1) && Supported(managed[4].1);
      assert Entries(m)[..5] == Entries(m);
      content := Some(FileText(lines));
      ok := true;
    }
  }

  // ----- entries -----

  predicate Word(key: string) {
    key != "" && forall i :: 0 <= i < |key| ==> key[i] == '_' || 'A' <= key[i] <= 'Z'
  }

  lemma EntryParts(key: string, value: string)
    requires Word(key)
    ensures KeyOf(Entry(key, value)) == key && ValueOf(Entry(key, value)) == Some(value)
  {
    FirstPieceAt(key, value, '=');
    TrimNothing(key, PythonSpace);
  }

  lemma EntryIsLine(key: string, value: string)
    requires Word(key) && Supported(value)
    ensures IsLine(Entry(key, value))
  {
  }

  // ----- lines kept and added -----

  lemma {:induction false} UnmanagedAppend(a: seq<string>, b: seq<string>)
    ensures Unmanaged(a + b) == Unmanaged(a) + Unmanaged(b)
  {
    if b == [] {
      assert a + b == a;
    } else {
      var n := |b| - 1;
      UnmanagedAppend(a, b[..n]);
      assert (a + b)[..|a + b| - 1] == a + b[..n];
    }
  }

  lemma {:induction false} UnmanagedAgain(lines: seq<string>)
    ensures Unmanaged(Unmanaged(lines)) == Unmanaged(lines)
  {
    if lines != [] {
      var n := |lines| - 1;
      UnmanagedAgain(lines[..n]);
      var last := if IsManaged(KeyOf(lines[n])) then [] else [lines[n]];
      UnmanagedAppend(Unmanaged(lines[..n]), last);
      UnmanagedOne(lines[n]);
    }
  }

  lemma UnmanagedOne(line: string)
    ensures Unmanaged([line]) == if IsManaged(KeyOf(line)) then [] else [line]
  {
    assert [line][..0] == [];
  }

  lemma EntriesAreManaged(m: Managed)
    ensures Unmanaged(Entries(m)) == []
  {
    var e := Entries(m);
    var keys := [BIND, PORT, UID, GID, CONFIG];
    var values := [m.bind, m.port, m.uid, m.gid, m.config];
    forall i | 0 <= i < 5 ensures IsManaged(KeyOf(e[i])) {
      EntryParts(keys[i], values[i]);
      assert e[i] == Entry(keys[i], values[i]);
    }
    AllManaged(e);
  }

  lemma {:induction false} AllManaged(lines: seq<string>)
    requires forall i :: 0 <= i < |lines| ==> IsManaged(KeyOf(lines[i]))
    ensures Unmanaged(lines) == []
  {
    if lines != [] {
      AllManaged(lines[..|lines| - 1]);
    }
  }

  lemma {:induction false} UnmanagedAreLines(lines: seq<string>)
    requires forall i :: 0 <= i < |lines| ==> IsLine(lines[i])
    ensures forall i :: 0 <= i < |Unmanaged(lines)| ==> IsLine(Unmanaged(lines)[i])
  {
    if lines != [] {
      UnmanagedAreLines(lines[..|lines| - 1]);
    }
  }

  lemma IsWord(key: string)
    requires IsManaged(key)
    ensures Word(key)
  {
  }

  lemma KeysAreWords()
    ensures Word(BIND) && Word(PORT) && Word(UID) && Word(GID) && Word(CONFIG)
  {
    hide Word;
    IsWord(BIND);
    IsWord(PORT);
    IsWord(UID);
    IsWord(GID);
    IsWord(CONFIG);
  }

  lemma EntriesAreLines(m: Managed)
    requires AllSupported(m)
    ensures forall i :: 0 <= i < |Entries(m)| ==> IsLine(Entries(m)[i])
  {
    hide Word, IsLine, Supported, Entry;
    KeysAreWords();
    EntryIsLine(BIND, m.bind);
    EntryIsLine(PORT, m.port);
    EntryIsLine(UID, m.uid);
    EntryIsLine(GID, m.gid);
    EntryIsLine(CONFIG, m.config);
  }

  /** The lines of a rewritten file: the unmanaged ones in their order, then the five entries. */
  lemma LinesOfRewritten(content: Option<string>, m: Managed)
    requires AllSupported(m)
    ensures Lines(Rewritten(content, m).value) == Unmanaged(OldLines(content)) + Entries(m)
  {
    var lines := Unmanaged(OldLines(content)) + Entries(m);
    if content.Some? {
      LinesAreLines(content.value);
    }
    UnmanagedAreLines(OldLines(content));
    EntriesAreLines(m);
    LinesOfText(lines);
  }

  // ----- the laws -----

  /** Unmanaged lines survive a rewrite in their order. */
  lemma UnmanagedLinesSurvive(content: Option<string>, m: Managed)
    requires AllSupported(m)
    ensures Unmanaged(OldLines(Rewritten(content, m))) == Unmanaged(OldLines(content))
  {
    LinesOfRewritten(content, m);
    UnmanagedAppend(Unmanaged(OldLines(content)), Entries(m));
    UnmanagedAgain(OldLines(content));
    EntriesAreManaged(m);
  }

  /** Rewriting twice is rewriting once with the later values. */
  lemma LaterRewriteWins(content: Option<string>, m1: Managed, m2: Managed)
    requires AllSupported(m1)
    ensures Rewritten(Rewritten(content, m1), m2) == Rewritten(content, m2)
  {
    UnmanagedLinesSurvive(content, m1);
  }

  /** Repeating a rewrite leaves the file unchanged. */
  lemma RepeatingChangesNothing(content: Option<string>, m: Managed)
    requires AllSupported(m)
    ensures Rewritten(Rewritten(content, m), m) == Rewritten(content, m)
  {
    LaterRewriteWins(content, m, m);
  }

  lemma LastMatchMore(lines: seq<string>, line: string, wanted: string)
    ensures LastMatch(lines + [line], wanted) ==
            if Matches(line, wanted) then ValueOf(line) else LastMatch(lines, wanted)
  {
    assert (lines + [line])[..|lines|] == lines;
  }

  lemma EntryMatch(lines: seq<string>, key: string, value: string, wanted: string)
    requires Word(key)
    ensures LastMatch(lines + [Entry(key, value)], wanted) ==
            if key == wanted then Some(value) else LastMatch(lines, wanted)
  {
    EntryParts(key, value);
    LastMatchMore(lines, Entry(key, value), wanted);
  }

  lemma FirstEntries(lines: seq<string>, m: Managed, wanted: string)
    ensures LastMatch(lines + Entries(m)[..3], wanted) ==
            if wanted == BIND || wanted == PORT || wanted == UID then Some(ValueFor(m, wanted))
            else LastMatch(lines, wanted)
  {
    hide Word, Entry, LastMatch;
    KeysAreWords();
    var l1 := lines + [Entry(BIND, m.bind)];
    var l2 := l1 + [Entry(PORT, m.port)];
    assert l2 + [Entry(UID, m.uid)] == lines + Entries(m)[..3];
    EntryMatch(lines, BIND, m.bind, wanted);
    EntryMatch(l1, PORT, m.port, wanted);
    EntryMatch(l2, UID, m.uid, wanted);
    KeysDiffer();
  }

  /** The entries decide every managed key and no other. */
  lemma EntriesMatch(lines: seq<string>, m: Managed, wanted: string)
    ensures LastMatch(lines + Entries(m), wanted) ==
            if IsManaged(wanted) then Some(ValueFor(m, wanted)) else LastMatch(lines, wanted)
  {
    hide Word, Entry, LastMatch;
    KeysAreWords();
    var l3 := lines + Entries(m)[..3];
    var l4 := l3 + [Entry(GID, m.gid)];
    assert l4 + [Entry(CONFIG, m.config)] == lines + Entries(m);
    FirstEntries(lines, m, wanted);
    EntryMatch(l3, GID, m.gid, wanted);
    EntryMatch(l4, CONFIG, m.config, wanted);
    KeysDiffer();
  }

  lemma KeysDiffer()
    ensures BIND != PORT && BIND != UID && BIND != GID && BIND != CONFIG
    ensures PORT != UID && PORT != GID && PORT != CONFIG && UID != GID && UID != CONFIG && GID != CONFIG
  {
    assert UID[14] == 'U' && GID[14] == 'G';
  }

  /** After a rewrite every managed key reads as the value written. */
  lemma ReadsWhatWasWritten(content: Option<string>, m: Managed, key: string)
    requires AllSupported(m) && IsManaged(key)
    ensures Read(Rewritten(content, m), key) == Value(ValueFor(m, key))
  {
    LinesOfRewritten(content, m);
    EntriesMatch(Unmanaged(OldLines(content)), m, key);
  }

  lemma {:induction false} UnmanagedMatch(lines: seq<string>, wanted: string)
    requires !IsManaged(wanted)
    ensures LastMatch(Unmanaged(lines), wanted) == LastMatch(lines, wanted)
  {
    if lines != [] {
      var n := |lines| - 1;
      UnmanagedMatch(lines[..n], wanted);
      if !IsManaged(KeyOf(lines[n])) {
        LastMatchMore(Unmanaged(lines[..n]), lines[n], wanted);
      } else {
        assert Unmanaged(lines) == Unmanaged(lines[..n]);
      }
    }
  }

  /** Every other key reads as before. */
  lemma OtherKeysAreKept(content: Option<string>, m: Managed, key: string)
    requires AllSupported(m) && !IsManaged(key)
    ensures Read(Rewritten(content, m), key) == Read(content, key)
  {
    LinesOfRewritten(content, m);
    EntriesMatch(Unmanaged(OldLines(content)), m, key);
    UnmanagedMatch(OldLines(content), key);
  }

  // ----- the laws in terms of the text -----

  /** A line with this text before its first separator, or without one this whole line. */
  ghost predicate Front(line: string, before: string) {
    '=' !in before && (line == before || exists after :: line == before + "=" + after)
  }

  /** The key of a line, with white space around it. */
  ghost predicate Keyed(line: string, key: string) {
    exists before :: Front(line, before) && Padded(before, key, PythonSpace)
  }

  /** A line that assigns the value to the key. */
  ghost predicate Assigns(line: string, key: string, value: string) {
    exists before :: '=' !in before && Padded(before, key, PythonSpace) && line == before + "=" + value
  }

  lemma FrontIsFirstPiece(line: string, before: string)
    ensures Front(line, before) <==> Split(line, '=')[0] == before
  {
    if Front(line, before) {
      if line == before {
        SplitPlain(line, '=');
      } else {
        var after :| line == before + "=" + after;
        FirstPieceAt(before, after, '=');
      }
    } else if Split(line, '=')[0] == before {
      SplitPieces(line, '=');
      FirstPieceIsFront(line);
    }
  }

  /** What follows the first piece is nothing, or a separator and the rest. */
  lemma {:induction false} FirstPieceIsFront(line: string)
    ensures
      var front := Split(line, '=')[0];
      |front| <= |line| && if ValueOf(line).None? then line == front else line == front + "=" + ValueOf(line).value
  {
    if line != "" && line[0] != '=' {
      FirstPieceIsFront(line[1..]);
      var front := Split(line[1..], '=')[0];
      assert Split(line, '=')[0] == [line[0]] + front;
      assert line == [line[0]] + line[1..];
    }
  }

  lemma KeyIff(line: string, key: string)
    ensures KeyOf(line) == key <==> Keyed(line, key)
  {
    var front := Split(line, '=')[0];
    FrontIsFirstPiece(line, front);
    TrimIffPadded(front, key, PythonSpace);
    if Keyed(line, key) {
      var before :| Front(line, before) && Padded(before, key, PythonSpace);
      FrontIsFirstPiece(line, before);
    }
  }

  lemma AssignsIff(line: string, key: string, value: string)
    ensures KeyOf(line) == key && ValueOf(line) == Some(value) <==> Assigns(line, key, value)
  {
    var front := Split(line, '=')[0];
    FrontIsFirstPiece(line, front);
    FirstPieceIsFront(line);
    TrimIffPadded(front, key, PythonSpace);
    if Assigns(line, key, value) {
      var before :| '=' !in before && Padded(before, key, PythonSpace) && line == before + "=" + value;
      FirstPieceAt(before, value, '=');
      assert line[|before| + 1..] == value;
    }
  }

  ghost predicate AssignsLast(lines: seq<string>, k: nat, key: string, value: string) {
    && k < |lines| && Assigns(lines[k], key, value)
    && (forall l, v :: k < l < |lines| ==> !Assigns(lines[l], key, v))
  }

  lemma {:induction false} LastMatchIff(lines: seq<string>, key: string, value: string)
    ensures LastMatch(lines, key) == Some(value) <==> exists k :: AssignsLast(lines, k, key, value)
  {
    hide Assigns;
    if lines != [] {
      var n := |lines| - 1;
      LastMatchIff(lines[..n], key, value);
      MatchIff(lines[n], key);
      if Matches(lines[n], key) {
        assert Assigns(lines[n], key, ValueOf(lines[n]).value);
        if ValueOf(lines[n]) == Some(value) {
          assert AssignsLast(lines, n, key, value);
        }
      } else {
        forall k: nat ensures AssignsLast(lines, k, key, value) <==> AssignsLast(lines[..n], k, key, value) {
        }
      }
    }
  }

  lemma MatchIff(line: string, key: string)
    ensures forall v :: Assigns(line, key, v) <==> Matches(line, key) && ValueOf(line) == Some(v)
  {
    forall v ensures Assigns(line, key, v) <==> Matches(line, key) && ValueOf(line) == Some(v) {
      AssignsIff(line, key, v);
    }
  }

  lemma EmptyLineAssignsNothing(key: string, value: string)
    ensures !Assigns("", key, value)
  {
  }

  /** What is read of a text is the value of the last of its lines that assigns the key,
      if its characters are supported; without such a line nothing is read. The text may
      have any line endings, and need not end with one. */
  lemma ReadsLastAssignment(lines: seq<string>, ends: seq<string>, key: string)
    requires Layout(lines, ends)
    ensures forall k, value :: AssignsLast(lines, k, key, value) ==>
      Read(Some(Laid(lines, ends)), key) == if Supported(value) then Value(value) else Unsupported
    ensures (forall k, value :: 0 <= k < |lines| ==> !Assigns(lines[k], key, value)) ==>
      Read(Some(Laid(lines, ends)), key) == Absent
  {
    hide Laid, Assigns, Supported, Lines, LastMatch;
    LinesOfLaid(lines, ends);
    var seen := LoopLines(lines);
    forall k: nat, value | AssignsLast(lines, k, key, value)
      ensures LastMatch(seen, key) == Some(value)
    {
      EmptyLineAssignsNothing(key, value);
      assert AssignsLast(seen, k, key, value);
      LastMatchIff(seen, key, value);
    }
    var found := LastMatch(seen, key);
    if found.Some? {
      LastMatchIff(seen, key, found.value);
      var k: nat :| AssignsLast(seen, k, key, found.value);
      assert Assigns(lines[k], key, found.value);
    }
  }

  /** A line of such a text is still there after a rewrite, between the same neighbours,
      exactly if its key is none of the managed ones; the entries come after all lines. */
  lemma LineSurvivesIff(
      front: seq<string>, line: string, back: seq<string>, ends: seq<string>, m: Managed)
    requires Layout(front + [line] + back, ends) && AllSupported(m)
    requires back == [] ==> line != ""
    ensures
      var kept := if exists key :: IsManaged(key) && Keyed(line, key) then [] else [line];
      Rewritten(Some(Laid(front + [line] + back, ends)), m) ==
        Some(FileText(Unmanaged(front) + kept + Unmanaged(if back == [] then [] else LoopLines(back)) + Entries(m)))
  {
    hide Layout, Laid, AllSupported, Keyed, Lines, IsManaged, Entries, FileText;
    var lines := front + [line] + back;
    var rest := if back == [] then [] else LoopLines(back);
    LinesOfLaid(lines, ends);
    assert LoopLines(lines) == front + [line] + rest;
    UnmanagedAppend(front + [line], rest);
    UnmanagedAppend(front, [line]);
    UnmanagedOne(line);
    KeyIff(line, KeyOf(line));
    forall key | IsManaged(key) && Keyed(line, key) ensures IsManaged(KeyOf(line)) {
      KeyIff(line, key);
    }
  }
}
