/** The rooms of a configuration, as Config.Validate and Config.Room of core/config.go
    read them. */
module Config {
  import opened Wrappers
  import opened Text

  datatype RoomConfig = RoomConfig(id: string, name: string, token: string)

  const MAX_ROOMS := 100

  predicate RoomIdStart(c: char) {
    'a' <= c <= 'z' || '0' <= c <= '9'
  }

  /** The pattern ^[a-z0-9][a-z0-9-]{0,62}$. */
  predicate ValidRoomId(id: string) {
    && 1 <= |id| <= 63 && RoomIdStart(id[0])
    && (forall i :: 0 <= i < |id| ==> RoomIdStart(id[i]) || id[i] == '-')
  }

  predicate ValidLabel(name: string) {
    !Blank(name, GoSpace) && |Encoded(name)| <= 100
  }

  predicate ValidToken(token: string) {
    |Encoded(token)| >= 16 && !("GENERATE_" <= token) && !("CHANGE_" <= token)
  }

  /** `name` is the label shown to people. */
  predicate ValidRoom(r: RoomConfig) {
    ValidRoomId(r.id) && ValidLabel(r.name) && ValidToken(r.token)
  }

  predicate Distinct(r: RoomConfig, s: RoomConfig) {
    r.id != s.id && r.token != s.token
  }

  predicate WellFormed(rooms: seq<RoomConfig>) {
    && (forall i :: 0 <= i < |rooms| ==> ValidRoom(rooms[i]))
    && (forall i, j :: 0 <= i < j < |rooms| ==> Distinct(rooms[i], rooms[j]))
  }

  /** What the rooms of an accepted configuration are. */
  predicate ValidRooms(rooms: seq<RoomConfig>) {
    1 <= |rooms| <= MAX_ROOMS && WellFormed(rooms)
  }

  datatype RoomsError =
    | WrongCount
    | BadId(i: nat) | DuplicateId(i: nat) | BadLabel(i: nat) | BadToken(i: nat) | DuplicateToken(i: nat)

  function Ids(rooms: seq<RoomConfig>): set<string> {
    set i | 0 <= i < |rooms| :: rooms[i].id
  }

  function Tokens(rooms: seq<RoomConfig>): set<string> {
    set i | 0 <= i < |rooms| :: rooms[i].token
  }

  lemma IdsMore(rooms: seq<RoomConfig>, r: RoomConfig)
    ensures Ids(rooms + [r]) == Ids(rooms) + {r.id}
    ensures Tokens(rooms + [r]) == Tokens(rooms) + {r.token}
  {
    var more := rooms + [r];
    forall i | 0 <= i < |rooms| ensures rooms[i].id in Ids(more) && rooms[i].token in Tokens(more) {
      assert more[i] == rooms[i];
    }
    assert more[|rooms|] == r;
  }

  /** One more room keeps the list well formed exactly if it is valid and its ID and
      token are unused. */
  lemma WellFormedMore(rooms: seq<RoomConfig>, r: RoomConfig)
    requires WellFormed(rooms)
    ensures WellFormed(rooms + [r]) <==> ValidRoom(r) && r.id !in Ids(rooms) && r.token !in Tokens(rooms)
  {
    var more := rooms + [r];
    assert more[|rooms|] == r;
    if WellFormed(more) {
      forall i | 0 <= i < |rooms| ensures rooms[i].id != r.id && rooms[i].token != r.token {
        assert more[i] == rooms[i];
        assert Distinct(more[i], more[|rooms|]);
      }
    }
  }

  /** What an error says: the rooms before i pass every check, and room i is the first to
      fail one, this one, having passed those before it. */
  predicate Explains(rooms: seq<RoomConfig>, e: RoomsError) {
    if e.WrongCount? then !(1 <= |rooms| <= MAX_ROOMS)
    else
      && e.i < |rooms| && WellFormed(rooms[..e.i])
      && var r, earlier := rooms[e.i], rooms[..e.i];
         match e
         case BadId(_) => !ValidRoomId(r.id)
         case DuplicateId(_) => ValidRoomId(r.id) && r.id in Ids(earlier)
         case BadLabel(_) => ValidRoomId(r.id) && r.id !in Ids(earlier) && !ValidLabel(r.name)
         case BadToken(_) =>
           ValidRoomId(r.id) && r.id !in Ids(earlier) && ValidLabel(r.name) && !ValidToken(r.token)
         case DuplicateToken(_) => ValidRoom(r) && r.id !in Ids(earlier) && r.token in Tokens(earlier)
  }

  lemma RoomsPass(rooms: seq<RoomConfig>, i: nat)
    requires i < |rooms|
    ensures WellFormed(rooms) ==>
              ValidRoom(rooms[i]) && rooms[i].id !in Ids(rooms[..i]) && rooms[i].token !in Tokens(rooms[..i])
  {
    if WellFormed(rooms) {
      forall j | 0 <= j < i ensures rooms[j].id != rooms[i].id && rooms[j].token != rooms[i].token {
        assert Distinct(rooms[j], rooms[i]);
      }
    }
  }

  /** An explained error rejects the list. */
  lemma ExplainedIsInvalid(rooms: seq<RoomConfig>, e: RoomsError)
    requires Explains(rooms, e)
    ensures !ValidRooms(rooms)
  {
    if !e.WrongCount? {
      RoomsPass(rooms, e.i);
    }
  }

  /** The room loop of Validate. */
  method ValidateRooms(rooms: seq<RoomConfig>) returns (err: Option<RoomsError>)
    ensures err.None? <==> ValidRooms(rooms)
    ensures err.Some? ==> Explains(rooms, err.value)
  {
    err := None;
    if |rooms| == 0 || |rooms| > MAX_ROOMS {
      return Some(WrongCount);
    }
    var seen: set<string>, seenTokens: set<string> := {}, {};
    var i := 0;
    while i < |rooms|
      invariant err.None? && 0 <= i <= |rooms| && WellFormed(rooms[..i])
      invariant seen == Ids(rooms[..i]) && seenTokens == Tokens(rooms[..i])
    {
      var r := rooms[i];
      TrimBlank(r.name, GoSpace);
      if !ValidRoomId(r.id) {
        err := Some(BadId(i));
      } else if r.id in seen {
        err := Some(DuplicateId(i));
      } else if Trim(r.name, GoSpace) == "" || |Encoded(r.name)| > 100 {
        err := Some(BadLabel(i));
      } else if |Encoded(r.token)| < 16 || "GENERATE_" <= r.token || "CHANGE_" <= r.token {
        err := Some(BadToken(i));
      } else if r.token in seenTokens {
        err := Some(DuplicateToken(i));
      }
      if err.Some? {
        ExplainedIsInvalid(rooms, err.value);
        return;
      }
      seen := seen + {r.id};
      seenTokens := seenTokens + {r.token};
      assert rooms[..i + 1] == rooms[..i] + [r];
      IdsMore(rooms[..i], r);
      WellFormedMore(rooms[..i], r);
      i := i + 1;
    }
    assert rooms[..i] == rooms;
  }

  /** Config.Room. */
  method FindRoom(rooms: seq<RoomConfig>, id: string) returns (r: Option<RoomConfig>)
    ensures r.None? <==> id !in Ids(rooms)
    ensures r.Some? ==>
      r.value.id == id && exists i :: 0 <= i < |rooms| && rooms[i] == r.value && id !in Ids(rooms[..i])
    ensures ValidRooms(rooms) ==> forall i :: 0 <= i < |rooms| && rooms[i].id == id ==> r == Some(rooms[i])
  {
    for i := 0 to |rooms|
      invariant id !in Ids(rooms[..i])
    {
      if rooms[i].id == id {
        assert rooms[i].id in Ids(rooms);
        return Some(rooms[i]);
      }
      assert rooms[..i + 1] == rooms[..i] + [rooms[i]];
      IdsMore(rooms[..i], rooms[i]);
    }
    assert rooms[..|rooms|] == rooms;
    return None;
  }
}
