/** Rooms and the room store of core/room.go.

    Every locked method is a function on values here; RoomObjects.dfy has the
    structs whose methods compute them in place. A connection pointer is a
    number and a Go nil is None; random codes and session suffixes are
    parameters. */
module Rooms {
  import opened Wrappers

  type Conn = nat

  datatype Session = Session(id: string, caller: Conn, callee: Conn)

  /** The fields of one Room object. */
  datatype RoomState = RoomState(
    id: string,
    display: Option<Conn>,
    code: string,
    generation: nat,
    presenter: Option<Conn>,
    sessions: map<string, Session>)

  /** What every method keeps true of one Room object, live or deleted. */
  ghost predicate Coherent(r: RoomState) {
    && (r.presenter.Some? ==> r.display.Some?)
    && |r.sessions| <= 1
    && (forall k :: k in r.sessions ==>
          && r.sessions[k].id == k
          && r.presenter == Some(r.sessions[k].caller)
          && r.display == Some(r.sessions[k].callee))
  }

  /** A deleted Room object holds nobody. */
  lemma DetachedIsEmpty(r: RoomState)
    requires Coherent(r) && r.display.None?
    ensures r.presenter.None? && r.sessions == map[]
  {
    assert forall k :: k !in r.sessions;
  }

  lemma NoSessionWithoutPresenter(r: RoomState)
    requires Coherent(r) && r.presenter.None?
    ensures r.sessions == map[]
  {
    assert forall k :: k !in r.sessions;
  }

  function EmptyRoom(id: string): RoomState {
    RoomState(id, None, "", 0, None, map[])
  }

  /** The connections a display change evicts from a coherent room. */
  function Stale(r: RoomState): seq<Conn> {
    if r.presenter.Some? then [r.presenter.value] else []
  }

  ghost predicate IsStale(r: RoomState, c: Conn) {
    r.presenter == Some(c) || exists k :: k in r.sessions && r.sessions[k].caller == c
  }

  function Attach(r: RoomState, c: Conn, code: string): RoomState {
    RoomState(r.id, Some(c), code, r.generation + 1, None, map[])
  }

  function Detach(r: RoomState): RoomState {
    RoomState(r.id, None, r.code, r.generation + 1, None, map[])
  }

  datatype Grant = Grant(display: Conn, generation: nat, code: string)

  /** The guard under which AuthorizePresenter grants the slot. */
  predicate Authorizes(r: RoomState, code: string) {
    r.display.Some? && r.presenter.None? && code == r.code
  }

  function Authorize(r: RoomState, code: string, c: Conn, newCode: string): (RoomState, Option<Grant>) {
    if Authorizes(r, code)
    then (r.(presenter := Some(c), code := newCode), Some(Grant(r.display.value, r.generation, newCode)))
    else (r, None)
  }

  /** The guard under which StartSession opens a session. */
  predicate Starts(r: RoomState, c: Conn, generation: nat) {
    r.display.Some? && r.generation == generation && r.presenter == Some(c) && |r.sessions| == 0
  }

  function Start(r: RoomState, c: Conn, generation: nat, suffix: string): (RoomState, Option<Session>) {
    if Starts(r, c, generation)
    then
      var id := r.id + "$" + suffix;
      var s := Session(id, c, r.display.value);
      (r.(sessions := r.sessions[id := s]), Some(s))
    else (r, None)
  }

  /** The key of the one session of a coherent room, or the empty string. */
  ghost function SessionKey(r: RoomState): string {
    if r.sessions == map[] then "" else var k :| k in r.sessions; k
  }

  datatype Released = Released(display: Option<Conn>, session: string, code: string)

  ghost function Release(r: RoomState, c: Conn): (RoomState, Released) {
    if r.presenter != Some(c) then (r, Released(None, "", ""))
    else (r.(presenter := None, sessions := map[]), Released(r.display, SessionKey(r), r.code))
  }

  lemma SessionKeyIsTheKey(r: RoomState, k: string)
    requires Coherent(r) && k in r.sessions
    ensures SessionKey(r) == k && r.sessions == map[k := r.sessions[k]]
  {
    var other := SessionKey(r);
    if other != k {
      assert {k, other} <= r.sessions.Keys;
      assert |{k, other}| == 2;
      SubsetSize({k, other}, r.sessions.Keys);
    }
    forall j | j in r.sessions ensures j == k {
      if j != k {
        assert |{k, j}| == 2;
        SubsetSize({k, j}, r.sessions.Keys);
      }
    }
  }

  // ----- the store -----

  /** Every Room object ever created, and the index of the live one for each ID. */
  datatype Store = Store(rooms: seq<RoomState>, live: map<string, nat>)

  ghost predicate LiveIndexOk(st: Store) {
    forall id :: id in st.live ==> st.live[id] < |st.rooms| && st.rooms[st.live[id]].id == id
  }

  /** A Room object is live exactly while it has a display. */
  ghost predicate RoomOk(st: Store, r: nat)
    requires r < |st.rooms|
  {
    && Coherent(st.rooms[r])
    && (st.rooms[r].display.Some? <==> st.rooms[r].id in st.live && st.live[st.rooms[r].id] == r)
  }

  ghost predicate StoreOk(st: Store) {
    && LiveIndexOk(st)
    && (forall r :: 0 <= r < |st.rooms| ==> RoomOk(st, r))
  }

  /** The store after SetDisplay has found or made the Room object. */
  function Opened(st: Store, id: string): Store {
    if id in st.live then st else Store(st.rooms + [EmptyRoom(id)], st.live[id := |st.rooms|])
  }

  lemma OpenedIsCoherent(st: Store, id: string)
    requires StoreOk(st)
    ensures
      var st1 := Opened(st, id);
      id in st1.live && st1.live[id] < |st1.rooms| && Coherent(st1.rooms[st1.live[id]])
  {
    if id in st.live {
      assert RoomOk(st, st.live[id]);
    }
  }

  datatype SetResult = SetResult(store: Store, room: nat, replaced: Option<Conn>, stale: seq<Conn>)

  function SetDisplay(st: Store, id: string, c: Conn, code: string): SetResult
    requires LiveIndexOk(st)
  {
    var st1 := Opened(st, id);
    var r := st1.live[id];
    var before := st1.rooms[r];
    SetResult(st1.(rooms := st1.rooms[r := Attach(before, c, code)]), r, before.display, Stale(before))
  }

  /** RemoveDisplay acts only when the live room's display is the caller. */
  predicate Removes(st: Store, id: string, c: Conn)
    requires LiveIndexOk(st)
  {
    id in st.live && st.rooms[st.live[id]].display == Some(c)
  }

  function RemoveDisplay(st: Store, id: string, c: Conn): (Store, seq<Conn>)
    requires LiveIndexOk(st)
  {
    if Removes(st, id, c) then
      var r := st.live[id];
      (Store(st.rooms[r := Detach(st.rooms[r])], st.live - {id}), Stale(st.rooms[r]))
    else (st, [])
  }

  lemma SetDisplayKeepsStore(st: Store, id: string, c: Conn, code: string)
    requires StoreOk(st)
    ensures StoreOk(SetDisplay(st, id, c, code).store)
  {
    var after := SetDisplay(st, id, c, code).store;
    forall r | 0 <= r < |after.rooms| ensures RoomOk(after, r) {
      if r < |st.rooms| {
        assert RoomOk(st, r);
      }
    }
  }

  lemma RemoveDisplayKeepsStore(st: Store, id: string, c: Conn)
    requires StoreOk(st)
    ensures StoreOk(RemoveDisplay(st, id, c).0)
  {
    var after := RemoveDisplay(st, id, c).0;
    forall r | 0 <= r < |after.rooms| ensures RoomOk(after, r) {
      assert RoomOk(st, r);
    }
  }

  /** A change of one Room object that keeps its ID and display keeps the store. */
  lemma RoomUpdateKeepsStore(st: Store, r: nat, room: RoomState)
    requires StoreOk(st) && r < |st.rooms| && Coherent(room)
    requires room.id == st.rooms[r].id && room.display == st.rooms[r].display
    ensures StoreOk(st.(rooms := st.rooms[r := room]))
  {
    var after := st.(rooms := st.rooms[r := room]);
    forall q | 0 <= q < |after.rooms| ensures RoomOk(after, q) {
      assert RoomOk(st, q);
    }
  }

  lemma AuthorizeKeepsCoherent(r: RoomState, code: string, c: Conn, newCode: string)
    requires Coherent(r)
    ensures Coherent(Authorize(r, code, c, newCode).0)
  {
    if Authorizes(r, code) {
      NoSessionWithoutPresenter(r);
    }
  }

  lemma StartKeepsCoherent(r: RoomState, c: Conn, generation: nat, suffix: string)
    requires Coherent(r)
    ensures Coherent(Start(r, c, generation, suffix).0)
  {
    if Starts(r, c, generation) {
      assert r.sessions == map[];
    }
  }
}
