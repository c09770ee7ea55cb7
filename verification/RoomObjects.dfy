/** The structs of core/room.go as classes: each locked method is proved to
    compute, in place, the function of module Rooms that has its name. */
module RoomObjects {
  import opened Wrappers
  import opened Rooms

  class Room {
    const ID: string
    var DisplayConn: Option<Conn>
    var VerifyCode: string
    var Generation: nat
    var PresenterConn: Option<Conn>
    var Sessions: map<string, Session>

    ghost function State(): RoomState
      reads this
    {
      RoomState(ID, DisplayConn, VerifyCode, Generation, PresenterConn, Sessions)
    }

    constructor (id: string)
      ensures State() == EmptyRoom(id)
    {
      ID := id;
      DisplayConn, VerifyCode, Generation, PresenterConn, Sessions := None, "", 0, None, map[];
    }

    /** The evicted connections, each once, whatever order the map is visited in. */
    method PresenterConnections() returns (out: seq<Conn>)
      ensures forall c :: c in out <==> IsStale(State(), c)
      ensures forall i, j :: 0 <= i < j < |out| ==> out[i] != out[j]
      ensures Coherent(State()) ==> out == Stale(State())
    {
      var seen: set<Conn> := {};
      out := [];
      if PresenterConn.Some? {
        seen, out := {PresenterConn.value}, [PresenterConn.value];
      }
      var todo := Sessions.Keys;
      while todo != {}
        invariant todo <= Sessions.Keys
        invariant forall c :: c in out <==> c in seen
        invariant forall c :: c in seen <==>
            PresenterConn == Some(c) || exists k :: k in Sessions.Keys - todo && Sessions[k].caller == c
        invariant forall i, j :: 0 <= i < j < |out| ==> out[i] != out[j]
        invariant Coherent(State()) ==> out == Stale(State())
        decreases todo
      {
        var k :| k in todo;
        var caller := Sessions[k].caller;
        ghost var before := seen;
        if caller !in seen {
          seen, out := seen + {caller}, out + [caller];
        }
        assert Sessions.Keys - (todo - {k}) == (Sessions.Keys - todo) + {k};
        todo := todo - {k};
      }
      assert Sessions.Keys - todo == Sessions.Keys;
    }

    method AuthorizePresenter(code: string, c: Conn, newCode: string)
      returns (display: Option<Conn>, generation: nat, issued: string, ok: bool)
      modifies this
      ensures State() == Authorize(old(State()), code, c, newCode).0
      ensures ok <==> Authorize(old(State()), code, c, newCode).1.Some?
      ensures ok ==> display == old(DisplayConn) && generation == old(Generation) && issued == VerifyCode == newCode
      ensures !ok ==> display.None? && generation == 0 && issued == ""
    {
      if DisplayConn.None? || PresenterConn.Some? || code != VerifyCode {
        return None, 0, "", false;
      }
      PresenterConn := Some(c);
      VerifyCode := newCode;
      return DisplayConn, Generation, VerifyCode, true;
    }

    method StartSession(c: Conn, generation: nat, suffix: string) returns (session: Option<Session>)
      modifies this
      ensures (State(), session) == Start(old(State()), c, generation, suffix)
    {
      if DisplayConn.None? || Generation != generation || PresenterConn != Some(c) || |Sessions| != 0 {
        return None;
      }
      var id := ID + "$" + suffix;
      var ss := Session(id, c, DisplayConn.value);
      Sessions := Sessions[id := ss];
      return Some(ss);
    }

    method ReleasePresenter(c: Conn) returns (display: Option<Conn>, session: string, code: string)
      requires Coherent(State())
      modifies this
      ensures (State(), Released(display, session, code)) == Release(old(State()), c)
    {
      if PresenterConn != Some(c) {
        return None, "", "";
      }
      session := "";
      var todo := Sessions.Keys;
      while todo != {}
        invariant todo <= Sessions.Keys <= old(Sessions).Keys
        invariant forall k :: k in Sessions ==> Sessions[k] == old(Sessions)[k]
        invariant forall k :: k in Sessions ==> k in todo
        invariant State() == old(State()).(sessions := Sessions)
        invariant todo == old(Sessions).Keys ==> session == ""
        invariant todo != old(Sessions).Keys ==> session in old(Sessions)
        decreases todo
      {
        var id :| id in todo;
        if Sessions[id].caller == c {
          Sessions := Sessions - {id};
          session := id;
        }
        todo := todo - {id};
      }
      if session in old(Sessions) {
        SessionKeyIsTheKey(old(State()), session);
      }
      if old(Sessions) == map[] {
      } else {
        var k :| k in old(Sessions);
        assert todo != old(Sessions).Keys;
      }
      PresenterConn := None;
      assert Sessions == map[];
      return DisplayConn, session, VerifyCode;
    }
  }

  /** The states of a list of Room objects. */
  ghost function States(rs: seq<Room>): (s: seq<RoomState>)
    reads rs
    ensures |s| == |rs| && forall i :: 0 <= i < |rs| ==> s[i] == rs[i].State()
  {
    seq(|rs|, i requires 0 <= i < |rs| reads rs => rs[i].State())
  }

  ghost predicate DistinctRooms(rs: seq<Room>) {
    forall i, j :: 0 <= i < j < |rs| ==> rs[i] != rs[j]
  }

  /** States after a call that changed the k-th Room object alone. */
  lemma OneRoomChanged(rs: seq<Room>, before: seq<RoomState>, k: nat)
    requires k < |rs| == |before|
    requires forall i :: 0 <= i < |rs| && i != k ==> rs[i].State() == before[i]
    ensures States(rs) == before[k := rs[k].State()]
  {
  }

  ghost predicate IndexOk(rooms: map<string, Room>, created: seq<Room>, live: map<string, nat>) {
    && rooms.Keys == live.Keys
    && (forall id :: id in live ==> live[id] < |created| && rooms[id] == created[live[id]])
    && DistinctRooms(created)
  }

  class RoomStore {
    var rooms: map<string, Room>
    ghost var created: seq<Room>
    ghost var live: map<string, nat>

    ghost function Abs(): Store
      reads this, created
    {
      Store(States(created), live)
    }

    /** The map of the source holds exactly the live entries of created. */
    ghost predicate Indexed()
      reads this
    {
      IndexOk(rooms, created, live)
    }

    ghost predicate Valid()
      reads this, created
    {
      Indexed() && StoreOk(Abs())
    }

    constructor ()
      ensures Valid() && Abs() == Store([], map[])
    {
      rooms, created, live := map[], [], map[];
    }

    method Get(id: string) returns (r: Option<Room>)
      requires Valid()
      ensures r.Some? <==> id in live
      ensures r.Some? ==> r.value == created[live[id]] && r.value.ID == id && r.value.DisplayConn.Some?
    {
      if id in rooms {
        assert Abs().rooms[live[id]] == created[live[id]].State();
        assert RoomOk(Abs(), live[id]);
        return Some(rooms[id]);
      }
      return None;
    }

    /** The Room object of an ID, made and put in the store when there is none. */
    method Open(id: string) returns (r: Room)
      requires Indexed()
      modifies this
      ensures Indexed() && id in live && r == created[live[id]]
      ensures Abs() == Opened(old(Abs()), id)
      ensures id in old(live) ==> unchanged(this)
      ensures id !in old(live) ==> fresh(r) && created == old(created) + [r]
    {
      if id !in rooms {
        r := new Room(id);
        created := created + [r];
        live := live[id := |created| - 1];
        rooms := rooms[id := r];
      } else {
        r := rooms[id];
      }
    }

    /** The part of SetDisplay that holds the lock of the room. */
    method Occupy(ghost k: nat, r: Room, c: Conn, newCode: string)
      returns (oldDisplay: Option<Conn>, stale: seq<Conn>)
      requires k < |created| && r == created[k] && DistinctRooms(created) && Coherent(r.State())
      modifies r
      ensures oldDisplay == old(r.DisplayConn) && stale == Stale(old(r.State()))
      ensures States(created) == old(States(created))[k := Attach(old(r.State()), c, newCode)]
    {
      ghost var before := States(created);
      oldDisplay := r.DisplayConn;
      stale := r.PresenterConnections();
      r.Sessions := map[];
      r.PresenterConn := None;
      r.DisplayConn := Some(c);
      r.Generation := r.Generation + 1;
      r.VerifyCode := newCode;
      OneRoomChanged(created, before, k);
    }

    method SetDisplay(id: string, c: Conn, newCode: string)
      returns (r: Room, oldDisplay: Option<Conn>, stale: seq<Conn>)
      requires Valid()
      modifies this, created
      ensures Valid()
      ensures old(created) <= created && fresh(created[|old(created)|..])
      ensures r in created
      ensures
        var res := Rooms.SetDisplay(old(Abs()), id, c, newCode);
        Abs() == res.store && r == created[res.room] && oldDisplay == res.replaced && stale == res.stale
    {
      hide Attach, Stale, Coherent;
      ghost var before := Abs();
      SetDisplayKeepsStore(before, id, c, newCode);
      r := Open(id);
      ghost var k, mid := live[id], Abs();
      assert mid.rooms[k] == r.State();
      OpenedIsCoherent(before, id);
      oldDisplay, stale := Occupy(k, r, c, newCode);
      assert Abs() == mid.(rooms := mid.rooms[k := Attach(mid.rooms[k], c, newCode)]);
      assert Abs() == Rooms.SetDisplay(before, id, c, newCode).store;
    }

    /** The part of RemoveDisplay that empties the room. */
    method Vacate(ghost k: nat, r: Room) returns (stale: seq<Conn>)
      requires k < |created| && r == created[k] && DistinctRooms(created) && Coherent(r.State())
      modifies r
      ensures stale == Stale(old(r.State()))
      ensures States(created) == old(States(created))[k := Detach(old(r.State()))]
    {
      ghost var before := States(created);
      stale := r.PresenterConnections();
      r.Sessions := map[];
      r.PresenterConn := None;
      r.DisplayConn := None;
      r.Generation := r.Generation + 1;
      OneRoomChanged(created, before, k);
    }

    method Forget(id: string)
      requires Indexed()
      modifies this
      ensures Indexed() && created == old(created)
      ensures Abs() == Store(old(States(created)), old(live) - {id})
    {
      rooms := rooms - {id};
      live := live - {id};
    }

    method RemoveDisplay(id: string, c: Conn) returns (stale: seq<Conn>)
      requires Valid()
      modifies this, created
      ensures Valid() && created == old(created)
      ensures (Abs(), stale) == Rooms.RemoveDisplay(old(Abs()), id, c)
    {
      ghost var before := Abs();
      RemoveDisplayKeepsStore(before, id, c);
      if id !in rooms {
        return [];
      }
      var r := rooms[id];
      ghost var k := live[id];
      assert before.rooms[k] == r.State();
      assert RoomOk(before, k);
      if r.DisplayConn != Some(c) {
        return [];
      }
      stale := Vacate(k, r);
      Forget(id);
    }

    /** A call that changes only the k-th Room object, keeping its ID and display,
        keeps the store and changes exactly that entry of it. */
    twostate lemma RoomCallLifts(k: nat)
      requires old(Valid()) && unchanged(this) && k < |created|
      requires forall i :: 0 <= i < |created| && i != k ==> created[i].State() == old(created[i].State())
      requires Coherent(created[k].State())
      requires created[k].DisplayConn == old(created[k].DisplayConn)
      ensures Valid()
      ensures Abs() == old(Abs()).(rooms := old(Abs()).rooms[k := created[k].State()])
    {
      OneRoomChanged(created, old(States(created)), k);
      RoomUpdateKeepsStore(old(Abs()), k, created[k].State());
    }
  }

  // ----- calls through a pointer that a handler holds -----

  /** AuthorizePresenter on any Room object ever created, live or deleted: the store stays
      valid and only that object's entry changes. */
  method AuthorizeHeld(store: RoomStore, ghost k: nat, r: Room, code: string, c: Conn, newCode: string)
    returns (display: Option<Conn>, generation: nat, issued: string, ok: bool)
    requires store.Valid() && k < |store.created| && r == store.created[k]
    modifies r
    ensures store.Valid()
    ensures
      var st := old(store.Abs());
      var (room, grant) := Authorize(st.rooms[k], code, c, newCode);
      && store.Abs() == st.(rooms := st.rooms[k := room])
      && (ok ==> display.Some?)
      && grant == if ok then Some(Grant(display.value, generation, issued)) else None
  {
    HeldIsCoherent(store, k);
    AuthorizeKeepsCoherent(r.State(), code, c, newCode);
    display, generation, issued, ok := r.AuthorizePresenter(code, c, newCode);
    store.RoomCallLifts(k);
  }

  method StartHeld(store: RoomStore, ghost k: nat, r: Room, c: Conn, generation: nat, suffix: string)
    returns (session: Option<Session>)
    requires store.Valid() && k < |store.created| && r == store.created[k]
    modifies r
    ensures store.Valid()
    ensures
      var st := old(store.Abs());
      var res := Start(st.rooms[k], c, generation, suffix);
      store.Abs() == st.(rooms := st.rooms[k := res.0]) && session == res.1
  {
    HeldIsCoherent(store, k);
    StartKeepsCoherent(r.State(), c, generation, suffix);
    session := r.StartSession(c, generation, suffix);
    store.RoomCallLifts(k);
  }

  method ReleaseHeld(store: RoomStore, ghost k: nat, r: Room, c: Conn)
    returns (display: Option<Conn>, session: string, code: string)
    requires store.Valid() && k < |store.created| && r == store.created[k]
    modifies r
    ensures store.Valid()
    ensures
      var st := old(store.Abs());
      var res := Release(st.rooms[k], c);
      && store.Abs() == st.(rooms := st.rooms[k := res.0])
      && res.1 == Released(display, session, code)
  {
    HeldIsCoherent(store, k);
    display, session, code := r.ReleasePresenter(c);
    store.RoomCallLifts(k);
  }

  lemma HeldIsCoherent(store: RoomStore, k: nat)
    requires store.Valid() && k < |store.created|
    ensures Coherent(store.created[k].State()) && store.Abs().rooms[k] == store.created[k].State()
  {
    assert RoomOk(store.Abs(), k);
  }
}
