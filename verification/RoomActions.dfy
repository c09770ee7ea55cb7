/** The five locked operations that change the rooms, as seen from outside the
    handlers: every step of the system performs one of them or none. */
module RoomActions {
  import opened Wrappers
  import opened Rooms
  import opened Signalling
  import opened SlotInvariant

  datatype Action =
    | NoAction
    | Sets(c: Conn, id: string, newCode: string)
    | Drops(c: Conn, id: string)
    | Asks(c: Conn, r: nat, code: string, newCode: string)
    | Opens(c: Conn, r: nat, gen: nat, suffix: string)
    | Frees(c: Conn, r: nat)

  /** The operation a step is about to perform. */
  function ActionOf(s: System, e: Event): Action
    requires PointersOk(s) && Enabled(s, e)
  {
    if !e.Run? then NoAction
    else
      match s.conns[e.c].pc
      case Registering => Sets(e.c, s.conns[e.c].id, e.input.text)
      case Removing(r) => Drops(e.c, s.store.rooms[r].id)
      case Authorizing(r, code) => Asks(e.c, r, code, e.input.text)
      case Starting(r, _, g) => Opens(e.c, r, g, e.input.text)
      case Releasing(r) => Frees(e.c, r)
      case _ => NoAction
  }

  function WithRoom(st: Store, r: nat, room: RoomState): Store
    requires r < |st.rooms|
  {
    st.(rooms := st.rooms[r := room])
  }

  ghost function Perform(st: Store, a: Action): Store
    requires LiveIndexOk(st)
    requires (a.Asks? || a.Opens? || a.Frees?) ==> a.r < |st.rooms|
  {
    match a
    case NoAction => st
    case Sets(c, id, newCode) => SetDisplay(st, id, c, newCode).store
    case Drops(c, id) => RemoveDisplay(st, id, c).0
    case Asks(c, r, code, newCode) => WithRoom(st, r, Authorize(st.rooms[r], code, c, newCode).0)
    case Opens(c, r, g, suffix) => WithRoom(st, r, Start(st.rooms[r], c, g, suffix).0)
    case Frees(c, r) => WithRoom(st, r, Release(st.rooms[r], c).0)
  }

  /** The step grants the presenter slot of r to c. */
  ghost predicate Grants(s: System, e: Event, c: Conn, r: nat)
    requires PointersOk(s) && Enabled(s, e)
  {
    var a := ActionOf(s, e);
    a.Asks? && a.c == c && a.r == r && Authorizes(s.store.rooms[r], a.code)
  }

  ghost predicate GrantStep(s: System, e: Event)
    requires PointersOk(s) && Enabled(s, e)
  {
    var a := ActionOf(s, e);
    a.Asks? && Grants(s, e, a.c, a.r)
  }

  /** A SetDisplay, or a RemoveDisplay that acts, on Room object r. */
  predicate HitsRoom(st: Store, a: Action, r: nat)
    requires LiveIndexOk(st)
  {
    || (a.Sets? && a.id in st.live && st.live[a.id] == r)
    || (a.Drops? && Removes(st, a.id, a.c) && st.live[a.id] == r)
  }

  ghost predicate Hits(s: System, e: Event, r: nat)
    requires PointersOk(s) && Enabled(s, e)
  {
    HitsRoom(s.store, ActionOf(s, e), r)
  }

  lemma NoActionKeepsStore(s: System, e: Event, t: System)
    requires Step(s, e, t) && ActionOf(s, e).NoAction?
    ensures t.store == s.store && t.issued == s.issued
  {
    if e.Run? {
      var pc := s.conns[e.c].pc;
      if EntryPc(pc) {
      } else if DisplayPc(pc) {
        QuietDisplayStep(s, e.c, e.input);
      } else {
        QuietPresenterStep(s, e.c, e.input);
      }
    }
  }

  lemma QuietDisplayStep(s: System, c: Conn, input: Input)
    requires PointersOk(s) && c in s.conns && DisplayPc(s.conns[c].pc)
    requires !s.conns[c].pc.Registering? && !s.conns[c].pc.Removing?
    ensures DisplayStep(s, c, input).store == s.store && DisplayStep(s, c, input).issued == s.issued
  {
  }

  lemma QuietPresenterStep(s: System, c: Conn, input: Input)
    requires PointersOk(s) && c in s.conns
    requires !s.conns[c].pc.Authorizing? && !s.conns[c].pc.Starting? && !s.conns[c].pc.Releasing?
    ensures PresenterStep(s, c, input).store == s.store && PresenterStep(s, c, input).issued == s.issued
  {
  }

  /** Rooms change only by the operation of the step. */
  lemma StepPerforms(s: System, e: Event, t: System)
    requires Step(s, e, t)
    ensures t.store == Perform(s.store, ActionOf(s, e))
  {
    var a := ActionOf(s, e);
    match a
    case NoAction => NoActionKeepsStore(s, e, t);
    case Sets(c, id, newCode) =>
    case Drops(c, id) =>
    case Asks(c, r, code, newCode) =>
      if !Authorizes(s.store.rooms[r], code) {
        assert WithRoom(s.store, r, s.store.rooms[r]).rooms == s.store.rooms;
      }
    case Opens(c, r, g, suffix) =>
      if !Starts(s.store.rooms[r], c, g) {
        assert WithRoom(s.store, r, s.store.rooms[r]).rooms == s.store.rooms;
      }
    case Frees(c, r) =>
  }

  // ----- how one Room object can change -----

  lemma PerformMovesGeneration(st: Store, a: Action, r: nat)
    requires LiveIndexOk(st) && r < |st.rooms| && ((a.Asks? || a.Opens? || a.Frees?) ==> a.r < |st.rooms|)
    ensures
      var after := Perform(st, a);
      && |st.rooms| <= |after.rooms| && after.rooms[r].id == st.rooms[r].id
      && (if HitsRoom(st, a, r) then after.rooms[r].generation == st.rooms[r].generation + 1
          else after.rooms[r].generation == st.rooms[r].generation && after.rooms[r].display == st.rooms[r].display)
  {
  }

  /** A Room object's generation counts its hits, and its display changes only by them. */
  lemma HitsMoveGeneration(s: System, e: Event, t: System, r: nat)
    requires Inv(s) && Step(s, e, t) && r < |s.store.rooms|
    ensures |s.store.rooms| <= |t.store.rooms|
    ensures t.store.rooms[r].id == s.store.rooms[r].id
    ensures Hits(s, e, r) ==> t.store.rooms[r].generation == s.store.rooms[r].generation + 1
    ensures !Hits(s, e, r) ==>
      t.store.rooms[r].generation == s.store.rooms[r].generation && t.store.rooms[r].display == s.store.rooms[r].display
  {
    StepPerforms(s, e, t);
    PerformMovesGeneration(s.store, ActionOf(s, e), r);
  }

  lemma PerformFreezes(st: Store, a: Action, r: nat)
    requires StoreOk(st) && r < |st.rooms| && st.rooms[r].display.None?
    requires (a.Asks? || a.Opens? || a.Frees?) ==> a.r < |st.rooms|
    ensures r < |Perform(st, a).rooms| && Perform(st, a).rooms[r] == st.rooms[r]
  {
    assert RoomOk(st, r);
    DetachedIsEmpty(st.rooms[r]);
  }

  /** A Room object deleted from the store is never changed again. */
  lemma DeletedIsFrozen(s: System, e: Event, t: System, r: nat)
    requires Inv(s) && Step(s, e, t) && r < |s.store.rooms| && s.store.rooms[r].display.None?
    ensures r < |t.store.rooms| && t.store.rooms[r] == s.store.rooms[r]
  {
    hide Next;
    hide Next, Perform;
    StepPerforms(s, e, t);
    PerformFreezes(s.store, ActionOf(s, e), r);
  }
}
