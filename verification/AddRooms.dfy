/** Adding rooms to a configuration: the prompts of scripts/configure.py and add_rooms
    up to the file it writes. */
module AddRooms {
  import opened Wrappers
  import opened Text
  import opened Config
  import opened Numbering

  // ----- prompts -----

  /** What is left to read: nonempty lines, with their newline where they have one. */
  type Lines = s: seq<string> | forall i :: 0 <= i < |s| ==> s[i] != ""

  class Stdin {
    var lines: Lines

    constructor (lines: Lines)
      ensures this.lines == lines
    {
      this.lines := lines;
    }

    /** readline: an empty string at the end of input. */
    method ReadLine() returns (line: string)
      modifies this
      ensures line == "" <==> old(lines) == []
      ensures old(lines) == if line == "" then [] else [line] + lines
      ensures line == "" ==> lines == []
    {
      if lines == [] {
        line := "";
      } else {
        line := lines[0];
        lines := lines[1..];
      }
    }
  }

  /** A validator returns the value to use, or raises ValueError. */
  type Validator = string -> Option<string>

  function Entered(line: string, default: string): string {
    if Trim(line, PythonSpace) == "" then default else Trim(line, PythonSpace)
  }

  /** ask: the value, None if it raises, and the lines it leaves. */
  function Asked(lines: Lines, default: string, validator: Validator): (Option<string>, Lines) {
    if lines == [] then (validator(default), [])
    else
      var answer := validator(Entered(lines[0], default));
      if answer.Some? then (answer, lines[1..]) else Asked(lines[1..], default, validator)
  }

  /** What the validator says of a line: of the line without the white space around it, or
      of the default if there is nothing else on it. */
  function Verdict(line: string, default: string, validator: Validator): Option<string> {
    if Blank(line, PythonSpace) then validator(default) else validator(Trim(line, PythonSpace))
  }

  /** The first k lines were rejected, and line k gave the answer; or there are no more
      lines, and the default gave it. */
  ghost predicate Answered(
      lines: seq<string>, default: string, validator: Validator, k: nat, answer: Option<string>, rest: seq<string>)
  {
    && k <= |lines|
    && (forall i :: 0 <= i < k ==> Verdict(lines[i], default, validator).None?)
    && (if k < |lines| then answer == Verdict(lines[k], default, validator) && answer.Some? && rest == lines[k + 1..]
        else answer == validator(default) && rest == [])
  }

  lemma EnteredVerdict(line: string, default: string, validator: Validator)
    ensures validator(Entered(line, default)) == Verdict(line, default, validator)
  {
    TrimBlank(line, PythonSpace);
  }

  lemma {:induction false} AskedAnswers(lines: Lines, default: string, validator: Validator) returns (k: nat)
    ensures
      var (answer, rest) := Asked(lines, default, validator);
      Answered(lines, default, validator, k, answer, rest)
  {
    hide Entered, Verdict;
    if lines == [] {
      k := 0;
    } else {
      EnteredVerdict(lines[0], default, validator);
      if Verdict(lines[0], default, validator).Some? {
        k := 0;
      } else {
        var l := AskedAnswers(lines[1..], default, validator);
        k := l + 1;
        assert forall i :: 0 < i < |lines| ==> lines[i] == lines[1..][i - 1];
      }
    }
  }

  /** The lines and the validator determine the answer. */
  lemma {:induction false} AnsweredIsAsked(
      lines: Lines, default: string, validator: Validator, k: nat, answer: Option<string>, rest: Lines)
    requires Answered(lines, default, validator, k, answer, rest)
    ensures Asked(lines, default, validator) == (answer, rest)
  {
    hide Entered, Verdict;
    if lines != [] {
      EnteredVerdict(lines[0], default, validator);
      if k > 0 {
        assert lines[1..][k - 1..] == lines[k..];
        AnsweredIsAsked(lines[1..], default, validator, k - 1, answer, rest);
      }
    }
  }

  method Ask(stdin: Stdin, default: string, validator: Validator) returns (answer: Option<string>)
    modifies stdin
    ensures (answer, stdin.lines) == Asked(old(stdin.lines), default, validator)
    ensures exists k :: Answered(old(stdin.lines), default, validator, k, answer, stdin.lines)
  {
    hide Answered;
    ghost var k := AskedAnswers(stdin.lines, default, validator);
    while true
      invariant Asked(stdin.lines, default, validator) == Asked(old(stdin.lines), default, validator)
      decreases |stdin.lines|
    {
      var line := stdin.ReadLine();
      answer := validator(if line == "" then default else Entered(line, default));
      if answer.Some? || line == "" {
        return;
      }
    }
  }

  /** What ask returns was accepted by the validator. It raises only at the end of input,
      and only if the default is not acceptable. */
  lemma AskedIsValid(lines: Lines, default: string, validator: Validator)
    ensures
      var (answer, rest) := Asked(lines, default, validator);
      && |rest| <= |lines| && rest == lines[|lines| - |rest|..]
      && (answer.Some? ==> exists value :: validator(value) == answer)
      && (answer.None? ==> validator(default).None? && rest == [])
  {
    var k := AskedAnswers(lines, default, validator);
  }

  function Lower(s: string): string {
    seq(|s|, i requires 0 <= i < |s| => if 'A' <= s[i] <= 'Z' then s[i] + 32 as char else s[i])
  }

  function YesNo(line: string, default: bool): Option<bool> {
    var value := Lower(Trim(line, PythonSpace));
    if value == "" then Some(default)
    else if value == "y" || value == "yes" then Some(true)
    else if value == "n" || value == "no" then Some(false)
    else None
  }

  /** ask_yes_no: the end of input chooses the default. */
  function AskedYesNo(lines: Lines, default: bool): (bool, Lines) {
    if lines == [] then (default, [])
    else
      var choice := YesNo(lines[0], default);
      if choice.Some? then (choice.value, lines[1..]) else AskedYesNo(lines[1..], default)
  }

  /** The line is this lower-case word with white space around it, in any mixture of cases. */
  ghost predicate Says(line: string, word: string) {
    exists text ::
      && Padded(line, text, PythonSpace) && |text| == |word|
      && forall i :: 0 <= i < |word| ==> text[i] == word[i] || text[i] as int == word[i] as int - 32
  }

  ghost predicate SaysYes(line: string) {
    Says(line, "y") || Says(line, "yes")
  }

  ghost predicate SaysNo(line: string) {
    Says(line, "n") || Says(line, "no")
  }

  lemma SaysIff(line: string, word: string)
    requires forall i :: 0 <= i < |word| ==> 'a' <= word[i] <= 'z'
    ensures Lower(Trim(line, PythonSpace)) == word <==> Says(line, word)
  {
    var text := Trim(line, PythonSpace);
    TrimIffPadded(line, text, PythonSpace);
    if Says(line, word) {
      var t :| Padded(line, t, PythonSpace) && |t| == |word|
        && forall i :: 0 <= i < |word| ==> t[i] == word[i] || t[i] as int == word[i] as int - 32;
      TrimIffPadded(line, t, PythonSpace);
      LowerWord(text, word);
    } else if Lower(text) == word {
      forall i | 0 <= i < |word| ensures text[i] == word[i] || text[i] as int == word[i] as int - 32 {
        assert Lower(text)[i] == word[i];
      }
    }
  }

  lemma LowerWord(text: string, word: string)
    requires forall i :: 0 <= i < |word| ==> 'a' <= word[i] <= 'z'
    requires |text| == |word|
    requires forall i :: 0 <= i < |word| ==> text[i] == word[i] || text[i] as int == word[i] as int - 32
    ensures Lower(text) == word
  {
    forall i | 0 <= i < |word| ensures Lower(text)[i] == word[i] {
      if text[i] != word[i] {
        assert 'A' <= text[i] <= 'Z';
      }
    }
  }

  /** Yes, no, or the default for a blank line; any other line is no answer. */
  lemma YesNoIff(line: string, default: bool)
    ensures YesNo(line, default) == Some(true) <==> SaysYes(line) || (Blank(line, PythonSpace) && default)
    ensures YesNo(line, default) == Some(false) <==> SaysNo(line) || (Blank(line, PythonSpace) && !default)
    ensures YesNo(line, default).None? <==> !SaysYes(line) && !SaysNo(line) && !Blank(line, PythonSpace)
  {
    hide Says, Trim, Blank;
    SaysIff(line, "y");
    SaysIff(line, "yes");
    SaysIff(line, "n");
    SaysIff(line, "no");
    TrimBlank(line, PythonSpace);
    assert |Lower(Trim(line, PythonSpace))| == |Trim(line, PythonSpace)|;
  }

  /** The first k lines say neither yes nor no and are not blank, and line k decides; or
      there are no more lines, and the default does. */
  ghost predicate Chosen(lines: seq<string>, default: bool, k: nat, choice: bool, rest: seq<string>) {
    && k <= |lines|
    && (forall i :: 0 <= i < k ==> !SaysYes(lines[i]) && !SaysNo(lines[i]) && !Blank(lines[i], PythonSpace))
    && (if k == |lines| then choice == default && rest == []
        else
          && rest == lines[k + 1..]
          && if Blank(lines[k], PythonSpace) then choice == default
             else if choice then SaysYes(lines[k]) else SaysNo(lines[k]))
  }

  lemma {:induction false} AskedYesNoChooses(lines: Lines, default: bool) returns (k: nat)
    ensures var (choice, rest) := AskedYesNo(lines, default); Chosen(lines, default, k, choice, rest)
  {
    hide YesNo, SaysYes, SaysNo, Blank;
    if lines == [] {
      k := 0;
    } else {
      YesNoIff(lines[0], default);
      if YesNo(lines[0], default).Some? {
        k := 0;
      } else {
        var l := AskedYesNoChooses(lines[1..], default);
        k := l + 1;
        assert forall i :: 0 < i < |lines| ==> lines[i] == lines[1..][i - 1];
      }
    }
  }

  /** No word says yes and no at once, or is blank. */
  lemma AnswersDiffer(line: string)
    ensures !(SaysYes(line) && SaysNo(line))
    ensures SaysYes(line) || SaysNo(line) ==> !Blank(line, PythonSpace)
  {
    hide SaysYes, SaysNo, YesNo;
    YesNoIff(line, true);
    YesNoIff(line, false);
  }

  /** The lines determine the choice. */
  lemma {:induction false} ChosenIsAsked(lines: Lines, default: bool, k: nat, choice: bool, rest: Lines)
    requires Chosen(lines, default, k, choice, rest)
    ensures AskedYesNo(lines, default) == (choice, rest)
  {
    hide YesNo, SaysYes, SaysNo, Blank;
    if lines != [] {
      YesNoIff(lines[0], default);
      AnswersDiffer(lines[0]);
      if k > 0 {
        assert lines[1..][k - 1..] == lines[k..];
        ChosenIsAsked(lines[1..], default, k - 1, choice, rest);
      }
    }
  }

  method AskYesNo(stdin: Stdin, default: bool) returns (choice: bool)
    modifies stdin
    ensures (choice, stdin.lines) == AskedYesNo(old(stdin.lines), default)
    ensures exists k :: Chosen(old(stdin.lines), default, k, choice, stdin.lines)
  {
    hide Chosen;
    ghost var k := AskedYesNoChooses(stdin.lines, default);
    while true
      invariant AskedYesNo(stdin.lines, default) == AskedYesNo(old(stdin.lines), default)
      decreases |stdin.lines|
    {
      var line := stdin.ReadLine();
      var value := Lower(Trim(line, PythonSpace));
      if value == "" {
        return default;
      } else if value == "y" || value == "yes" {
        return true;
      } else if value == "n" || value == "no" {
        return false;
      }
    }
  }

  // ----- validators -----

  /** room_id. */
  function RoomId(value: string): Option<string> {
    if ValidRoomId(value) then Some(value) else None
  }

  function UniqueId(identifiers: set<string>): Validator {
    value => if RoomId(value).Some? && value !in identifiers then RoomId(value) else None
  }

  predicate Control(c: char) {
    c as int < 32
  }

  /** nonempty(value, "room label"). */
  function RoomLabel(value: string): Option<string> {
    var text := Trim(value, PythonSpace);
    if text == "" || |Encoded(text)| > 100 || exists i :: 0 <= i < |text| && Control(text[i])
    then None else Some(text)
  }

  /** What the scripts accept as a label the server accepts too. */
  lemma RoomLabelIsValid(value: string)
    ensures RoomLabel(value).Some? ==> ValidLabel(RoomLabel(value).value)
  {
    TrimmedEnds(value, PythonSpace);
  }

  // ----- the default number -----

  function RoomName(n: nat): string {
    Numbered("room-", n)
  }

  predicate NextNumber(identifiers: set<string>, start: nat, n: nat) {
    LeastUnused(identifiers, "room-", start, n)
  }

  method NextRoomNumber(identifiers: set<string>, start: nat) returns (n: nat)
    ensures NextNumber(identifiers, start, n)
    ensures n <= start + |identifiers|
  {
    n := start;
    while RoomName(n) in identifiers
      invariant TakenUpTo(identifiers, "room-", start, n)
      decreases start + |identifiers| - n
    {
      TakenIsBounded(identifiers, "room-", start, n + 1);
      n := n + 1;
    }
    TakenIsBounded(identifiers, "room-", start, n);
  }

  /** The number that next_room_number finds. */
  function NextFrom(identifiers: set<string>, start: nat): (n: nat)
    ensures NextNumber(identifiers, start, n) && n <= start + |identifiers|
  {
    FirstUnused(identifiers, "room-", start, start)
  }

  /** The default ID is always acceptable. */
  lemma DefaultIdIsValid(identifiers: set<string>, n: nat)
    requires n < 1000 && RoomName(n) !in identifiers
    ensures UniqueId(identifiers)(RoomName(n)) == Some(RoomName(n))
  {
    DecimalDigits(n);
    var name := RoomName(n);
    assert name[0] == 'r' && name[1] == 'o' && name[2] == 'o' && name[3] == 'm' && name[4] == '-';
    assert forall i :: 5 <= i < |name| ==> name[i] == Decimal(n)[i - 5];
  }

  function DefaultLabel(n: nat): string {
    "Room " + Decimal(n)
  }

  lemma DefaultLabelIsValid(n: nat)
    requires n < 1000
    ensures RoomLabel(DefaultLabel(n)) == Some(DefaultLabel(n))
  {
    DecimalDigits(n);
    var text := DefaultLabel(n);
    assert text[0] == 'R' && text[1] == 'o' && text[2] == 'o' && text[3] == 'm' && text[4] == ' ';
    assert forall i :: 5 <= i < |text| ==> text[i] == Decimal(n)[i - 5];
    AsciiSize(text);
    TrimNothing(text, PythonSpace);
  }

  // ----- the rooms that are there -----

  /** What validate_existing_rooms asks of one room. Lengths of tokens are in characters. */
  predicate ExistingRoom(r: RoomConfig) {
    && ValidRoomId(r.id) && RoomLabel(r.name).Some?
    && |r.token| >= 16 && !("GENERATE_" <= r.token) && !("CHANGE_" <= r.token)
  }

  predicate ExistingWellFormed(rooms: seq<RoomConfig>) {
    && (forall i :: 0 <= i < |rooms| ==> ExistingRoom(rooms[i]))
    && (forall i, j :: 0 <= i < j < |rooms| ==> Distinct(rooms[i], rooms[j]))
  }

  predicate ExistingRooms(rooms: seq<RoomConfig>) {
    1 <= |rooms| < MAX_ROOMS && ExistingWellFormed(rooms)
  }

  lemma ExistingMore(rooms: seq<RoomConfig>, r: RoomConfig)
    requires ExistingWellFormed(rooms)
    ensures ExistingWellFormed(rooms + [r]) <==>
            ExistingRoom(r) && r.id !in Ids(rooms) && r.token !in Tokens(rooms)
  {
    var more := rooms + [r];
    assert more[|rooms|] == r;
    if ExistingWellFormed(more) {
      forall i | 0 <= i < |rooms| ensures rooms[i].id != r.id && rooms[i].token != r.token {
        assert more[i] == rooms[i];
        assert Distinct(more[i], more[|rooms|]);
      }
    }
  }

  lemma ExistingPrefix(rooms: seq<RoomConfig>, i: nat)
    requires i <= |rooms| && !ExistingWellFormed(rooms[..i])
    ensures !ExistingWellFormed(rooms)
  {
  }

  lemma NoIds()
    ensures Ids([]) == {} && Tokens([]) == {}
  {
  }

  method ValidateExistingRooms(rooms: seq<RoomConfig>)
    returns (ok: bool, identifiers: set<string>, tokens: set<string>)
    ensures ok <==> ExistingRooms(rooms)
    ensures ok ==> identifiers == Ids(rooms) && tokens == Tokens(rooms)
  {
    hide RoomLabel, ValidRoomId, Ids, Tokens;
    identifiers, tokens := {}, {};
    NoIds();
    if |rooms| == 0 || |rooms| >= MAX_ROOMS {
      return false, {}, {};
    }
    for i := 0 to |rooms|
      invariant ExistingWellFormed(rooms[..i])
      invariant identifiers == Ids(rooms[..i]) && tokens == Tokens(rooms[..i])
    {
      var r := rooms[i];
      assert rooms[..i + 1] == rooms[..i] + [r];
      ExistingMore(rooms[..i], r);
      IdsMore(rooms[..i], r);
      if RoomId(r.id).None? || RoomLabel(r.name).None?
        || |r.token| < 16 || "GENERATE_" <= r.token || "CHANGE_" <= r.token
        || r.id in identifiers || r.token in tokens {
        ExistingPrefix(rooms, i + 1);
        return false, {}, {};
      }
      identifiers := identifiers + {r.id};
      tokens := tokens + {r.token};
    }
    assert rooms[..|rooms|] == rooms;
    ok := true;
  }

  // ----- adding -----

  /** The first draw that is not a token yet, and the draws after it; None if the search
      goes on past these draws. */
  function Drawn(draws: seq<string>, tokens: set<string>): Option<(string, seq<string>)> {
    if draws == [] then None
    else if draws[0] in tokens then Drawn(draws[1..], tokens)
    else Some((draws[0], draws[1..]))
  }

  lemma {:induction false} DrawnIsFresh(draws: seq<string>, tokens: set<string>)
    ensures
      var d := Drawn(draws, tokens);
      d.Some? ==> d.value.0 in draws && d.value.0 !in tokens && forall t :: t in d.value.1 ==> t in draws
  {
    if draws != [] && draws[0] in tokens {
      DrawnIsFresh(draws[1..], tokens);
    }
  }

  /** What add_rooms comes to: the rooms it writes, an exception, or a search for a new
      token that these draws do not end. */
  datatype Outcome = Written(rooms: seq<RoomConfig>, lines: Lines, draws: seq<string>) | Raised | Drawing

  /** One pass of the loop: the list with its new room. */
  function OneMore(rooms: seq<RoomConfig>, lines: Lines, draws: seq<string>): Outcome {
    var n := NextFrom(Ids(rooms), |rooms| + 1);
    var (id, lines1) := Asked(lines, RoomName(n), UniqueId(Ids(rooms)));
    if id.None? then Raised
    else
      var (name, lines2) := Asked(lines1, DefaultLabel(n), RoomLabel);
      if name.None? then Raised
      else
        var d := Drawn(draws, Tokens(rooms));
        if d.None? then Drawing
        else Written(rooms + [RoomConfig(id.value, name.value, d.value.0)], lines2, d.value.1)
  }

  function Added(rooms: seq<RoomConfig>, lines: Lines, draws: seq<string>): Outcome
    decreases MAX_ROOMS - |rooms|
  {
    if |rooms| >= MAX_ROOMS then Written(rooms, lines, draws)
    else
      var more := OneMore(rooms, lines, draws);
      OneMoreRoom(rooms, lines, draws);
      if !more.Written? then more
      else if |more.rooms| >= MAX_ROOMS then more
      else
        var (again, rest) := AskedYesNo(more.lines, false);
        if again then Added(more.rooms, rest, more.draws) else more.(lines := rest)
  }

  /** A new room has an unused valid ID, a valid label and an unused token that was drawn.
      No prompt raises: at the end of input every default is acceptable. */
  lemma OneMoreRoom(rooms: seq<RoomConfig>, lines: Lines, draws: seq<string>)
    ensures
      var more := OneMore(rooms, lines, draws);
      more.Written? ==>
        && |more.rooms| == |rooms| + 1 && more.rooms[..|rooms|] == rooms
        && NewRoom(rooms, more.rooms[|rooms|], draws)
        && (forall t :: t in more.draws ==> t in draws)
    ensures |rooms| < MAX_ROOMS ==> !OneMore(rooms, lines, draws).Raised?
  {
    var n := NextFrom(Ids(rooms), |rooms| + 1);
    var (id, lines1) := Asked(lines, RoomName(n), UniqueId(Ids(rooms)));
    AskedIdIsUnique(lines, RoomName(n), Ids(rooms));
    AskedLabelIsValid(lines1, DefaultLabel(n));
    DrawnIsFresh(draws, Tokens(rooms));
    if |rooms| < MAX_ROOMS {
      IdsAreFew(rooms);
      DefaultIdIsValid(Ids(rooms), n);
      DefaultLabelIsValid(n);
    }
  }

  predicate NewRoom(rooms: seq<RoomConfig>, r: RoomConfig, draws: seq<string>) {
    && ValidRoomId(r.id) && r.id !in Ids(rooms) && ValidLabel(r.name)
    && r.token in draws && r.token !in Tokens(rooms)
  }

  lemma AskedIdIsUnique(lines: Lines, default: string, identifiers: set<string>)
    ensures
      var id := Asked(lines, default, UniqueId(identifiers)).0;
      if id.Some? then ValidRoomId(id.value) && id.value !in identifiers
      else UniqueId(identifiers)(default).None?
  {
    AskedIsValid(lines, default, UniqueId(identifiers));
  }

  lemma AskedLabelIsValid(lines: Lines, default: string)
    ensures
      var name := Asked(lines, default, RoomLabel).0;
      if name.Some? then ValidLabel(name.value) else RoomLabel(default).None?
  {
    AskedIsValid(lines, default, RoomLabel);
    var name := Asked(lines, default, RoomLabel).0;
    if name.Some? {
      var value :| RoomLabel(value) == name;
      RoomLabelIsValid(value);
    }
  }

  lemma {:induction false} IdsAreFew(rooms: seq<RoomConfig>)
    ensures |Ids(rooms)| <= |rooms|
  {
    if rooms != [] {
      var n := |rooms| - 1;
      IdsAreFew(rooms[..n]);
      assert rooms == rooms[..n] + [rooms[n]];
      IdsMore(rooms[..n], rooms[n]);
    } else {
      assert Ids(rooms) == {};
    }
  }

  /** From fewer than 100 rooms add_rooms never raises. */
  lemma {:induction false} AddingNeverRaises(rooms: seq<RoomConfig>, lines: Lines, draws: seq<string>)
    ensures !Added(rooms, lines, draws).Raised?
    decreases MAX_ROOMS - |rooms|
  {
    if |rooms| < MAX_ROOMS {
      var more := OneMore(rooms, lines, draws);
      OneMoreRoom(rooms, lines, draws);
      if more.Written? && |more.rooms| < MAX_ROOMS {
        AddingNeverRaises(more.rooms, AskedYesNo(more.lines, false).1, more.draws);
      }
    }
  }

  /** The list written keeps the old rooms in front and grows to at most 100. Provided the
      drawn tokens are acceptable, the server accepts it exactly if it accepts the old. */
  lemma {:induction false} AddingKeepsRooms(rooms: seq<RoomConfig>, lines: Lines, draws: seq<string>)
    requires |rooms| < MAX_ROOMS && forall t :: t in draws ==> ValidToken(t)
    requires Added(rooms, lines, draws).Written?
    ensures
      var all := Added(rooms, lines, draws).rooms;
      rooms < all && |all| <= MAX_ROOMS && (WellFormed(all) <==> WellFormed(rooms))
    decreases MAX_ROOMS - |rooms|
  {
    var more := OneMore(rooms, lines, draws);
    OneMoreRoom(rooms, lines, draws);
    var r := more.rooms[|rooms|];
    assert more.rooms == rooms + [r];
    if WellFormed(rooms) {
      WellFormedMore(rooms, r);
    }
    if |more.rooms| < MAX_ROOMS && AskedYesNo(more.lines, false).0 {
      AddingKeepsRooms(more.rooms, AskedYesNo(more.lines, false).1, more.draws);
    }
    PrefixIsWellFormed(rooms, Added(rooms, lines, draws).rooms);
  }

  lemma PrefixIsWellFormed(rooms: seq<RoomConfig>, all: seq<RoomConfig>)
    requires rooms <= all
    ensures WellFormed(all) ==> WellFormed(rooms)
  {
  }

  /** With standard input closed exactly one room is added, under the least unused number
      and with the first draw that is not a token yet; if no draw is one, the search for a
      token goes on. */
  lemma ClosedStdinAddsOneRoom(rooms: seq<RoomConfig>, draws: seq<string>, n: nat)
    requires |rooms| < MAX_ROOMS && NextNumber(Ids(rooms), |rooms| + 1, n)
    ensures
      var d := Drawn(draws, Tokens(rooms));
      Added(rooms, [], draws) ==
        if d.None? then Drawing
        else Written(rooms + [RoomConfig(RoomName(n), DefaultLabel(n), d.value.0)], [], d.value.1)
  {
    LeastUnusedIsUnique(Ids(rooms), "room-", |rooms| + 1, n, NextFrom(Ids(rooms), |rooms| + 1));
    IdsAreFew(rooms);
    DefaultIdIsValid(Ids(rooms), n);
    DefaultLabelIsValid(n);
  }

  // ----- what is typed is what is written -----

  /** What a line comes to: the text on it, or the default if it is blank. */
  function Typed(line: string, default: string): string {
    if Blank(line, PythonSpace) then default else Trim(line, PythonSpace)
  }

  predicate IsNewId(identifiers: set<string>, id: string) {
    ValidRoomId(id) && id !in identifiers
  }

  /** 1 to 100 bytes of UTF-8 without control characters. */
  predicate IsLabel(text: string) {
    1 <= |Encoded(text)| <= 100 && forall i :: 0 <= i < |text| ==> text[i] >= ' '
  }

  lemma IdVerdict(line: string, identifiers: set<string>, n: nat)
    ensures
      var id := Typed(line, RoomName(n));
      Verdict(line, RoomName(n), UniqueId(identifiers)) == if IsNewId(identifiers, id) then Some(id) else None
  {
    hide ValidRoomId, Blank, Trim;
  }

  lemma LabelVerdict(line: string, n: nat)
    requires n < 1000
    ensures
      var text := Typed(line, DefaultLabel(n));
      Verdict(line, DefaultLabel(n), RoomLabel) == if IsLabel(text) then Some(text) else None
  {
    hide Trim, Blank;
    var text := Typed(line, DefaultLabel(n));
    if Blank(line, PythonSpace) {
      DefaultLabelIsValid(n);
    } else {
      TrimmedEnds(line, PythonSpace);
      TrimNothing(text, PythonSpace);
    }
    LabelOfTrimmed(text);
  }

  lemma LabelOfTrimmed(text: string)
    requires Trim(text, PythonSpace) == text || RoomLabel(text) == Some(text)
    ensures RoomLabel(text) == if IsLabel(text) then Some(text) else None
  {
    hide Trim;
  }

  /** Draw k is the first that is no token yet. */
  ghost predicate FirstFresh(draws: seq<string>, tokens: set<string>, k: nat) {
    k < |draws| && draws[k] !in tokens && forall i :: 0 <= i < k ==> draws[i] in tokens
  }

  lemma {:induction false} DrawnIsFirstFresh(draws: seq<string>, tokens: set<string>, k: nat)
    requires FirstFresh(draws, tokens, k)
    ensures Drawn(draws, tokens) == Some((draws[k], draws[k + 1..]))
  {
    if k > 0 {
      assert draws[1..][k..] == draws[k + 1..];
      DrawnIsFirstFresh(draws[1..], tokens, k - 1);
    }
  }

  /** Line i is the first on which a new valid ID is typed, line j the first label after it,
      where a blank line stands for the default. */
  ghost predicate TypesRoom(identifiers: set<string>, n: nat, lines: seq<string>, i: nat, j: nat) {
    && i < j < |lines|
    && (forall l :: 0 <= l < i ==> !IsNewId(identifiers, Typed(lines[l], RoomName(n))))
    && IsNewId(identifiers, Typed(lines[i], RoomName(n)))
    && (forall l :: i < l < j ==> !IsLabel(Typed(lines[l], DefaultLabel(n))))
    && IsLabel(Typed(lines[j], DefaultLabel(n)))
  }

  lemma TypedAnswers(identifiers: set<string>, n: nat, lines: Lines, i: nat, j: nat)
    requires n < 1000 && TypesRoom(identifiers, n, lines, i, j)
    ensures Asked(lines, RoomName(n), UniqueId(identifiers)) == (Some(Typed(lines[i], RoomName(n))), lines[i + 1..])
    ensures Asked(lines[i + 1..], DefaultLabel(n), RoomLabel) ==
            (Some(Typed(lines[j], DefaultLabel(n))), lines[j + 1..])
  {
    hide IsNewId, IsLabel, Typed, Verdict, RoomLabel, UniqueId;
    forall l | 0 <= l <= i
      ensures
        var id := Typed(lines[l], RoomName(n));
        Verdict(lines[l], RoomName(n), UniqueId(identifiers)) == if IsNewId(identifiers, id) then Some(id) else None
    {
      IdVerdict(lines[l], identifiers, n);
    }
    AnsweredIsAsked(lines, RoomName(n), UniqueId(identifiers), i, Some(Typed(lines[i], RoomName(n))), lines[i + 1..]);
    var after := lines[i + 1..];
    forall l | 0 <= l < |after|
      ensures
        var text := Typed(after[l], DefaultLabel(n));
        Verdict(after[l], DefaultLabel(n), RoomLabel) == if IsLabel(text) then Some(text) else None
    {
      LabelVerdict(after[l], n);
    }
    assert after[j - i - 1] == lines[j] && after[j - i..] == lines[j + 1..];
    var text := Typed(lines[j], DefaultLabel(n));
    AnsweredIsAsked(after, DefaultLabel(n), RoomLabel, j - i - 1, Some(text), lines[j + 1..]);
  }

  /** The room added has the ID and the label that were typed and the first draw that is no
      token yet. The line that answers the question after it decides whether there is
      another room; after the hundredth room the question is not asked. */
  lemma TypedRoomIsAdded(
      rooms: seq<RoomConfig>, lines: Lines, draws: seq<string>, n: nat, i: nat, j: nat, k: nat,
      q: nat, again: bool, rest: Lines)
    requires |rooms| < MAX_ROOMS && NextNumber(Ids(rooms), |rooms| + 1, n)
    requires TypesRoom(Ids(rooms), n, lines, i, j) && FirstFresh(draws, Tokens(rooms), k)
    requires Chosen(lines[j + 1..], false, q, again, rest)
    ensures
      var all := rooms + [RoomConfig(Typed(lines[i], RoomName(n)), Typed(lines[j], DefaultLabel(n)), draws[k])];
      var left := draws[k + 1..];
      Added(rooms, lines, draws) ==
        if |all| == MAX_ROOMS then Written(all, lines[j + 1..], left)
        else if again then Added(all, rest, left)
        else Written(all, rest, left)
  {
    hide Chosen, Typed, FirstFresh, Asked, AskedYesNo, LeastUnused;
    LeastUnusedIsUnique(Ids(rooms), "room-", |rooms| + 1, n, NextFrom(Ids(rooms), |rooms| + 1));
    IdsAreFew(rooms);
    TypedAnswers(Ids(rooms), n, lines, i, j);
    DrawnIsFirstFresh(draws, Tokens(rooms), k);
    ChosenIsAsked(lines[j + 1..], false, q, again, rest);
  }

  /** add_rooms up to replace_with_backup, on an accepted public_url. `drawn` says whether
      the draws sufficed. */
  method AddRooms(rooms: seq<RoomConfig>, stdin: Stdin, draws: seq<string>)
    returns (ok: bool, outcome: Outcome)
    modifies stdin
    ensures ok <==> ExistingRooms(rooms)
    ensures ok ==> outcome == Added(rooms, old(stdin.lines), draws)
    ensures !ok ==> stdin.lines == old(stdin.lines)
  {
    var identifiers, tokens;
    ok, identifiers, tokens := ValidateExistingRooms(rooms);
    outcome := Raised;
    if !ok {
      return;
    }
    var list, left := rooms, draws;
    while |list| < MAX_ROOMS
      invariant |list| < MAX_ROOMS && identifiers == Ids(list) && tokens == Tokens(list)
      invariant Added(list, stdin.lines, left) == Added(rooms, old(stdin.lines), draws)
      decreases MAX_ROOMS - |list|
    {
      OneMoreRoom(list, stdin.lines, left);
      ghost var more := OneMore(list, stdin.lines, left);
      var number := NextRoomNumber(identifiers, |list| + 1);
      LeastUnusedIsUnique(identifiers, "room-", |list| + 1, number, NextFrom(identifiers, |list| + 1));
      var identifier := Ask(stdin, RoomName(number), UniqueId(identifiers));
      if identifier.None? {
        return;
      }
      var name := Ask(stdin, DefaultLabel(number), RoomLabel);
      if name.None? {
        return;
      }
      var d := Drawn(left, tokens);
      if d.None? {
        outcome := Drawing;
        return;
      }
      var room := RoomConfig(identifier.value, name.value, d.value.0);
      IdsMore(list, room);
      list, left := list + [room], d.value.1;
      identifiers := identifiers + {room.id};
      tokens := tokens + {room.token};
      assert more == Written(list, stdin.lines, left);
      outcome := Written(list, stdin.lines, left);
      if |list| >= MAX_ROOMS {
        return;
      }
      var again := AskYesNo(stdin, false);
      if !again {
        outcome := Written(list, stdin.lines, left);
        return;
      }
    }
  }
}
