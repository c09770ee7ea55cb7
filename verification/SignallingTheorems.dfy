/** What every run of the signalling server guarantees. */
module SignallingTheorems {
  import opened Wrappers
  import opened Rooms
  import opened Signalling
  import opened SlotInvariant
  import opened RoomActions

  // ----- handlers only move forward -----

  ghost predicate Forward(a: PC, b: PC) {
    !Early(a) ==>
      && !Early(b)
      && (DisplaySlot(b).Some? ==> DisplaySlot(b) == DisplaySlot(a))
      && (PresenterSlot(b).Some? ==> PresenterSlot(b) == PresenterSlot(a))
      && (Kept(b).Some? ==> Kept(b) == Kept(a))
      && (KeptGeneration(b).Some? ==> KeptGeneration(b) == KeptGeneration(a))
  }

  /** c's handler moves forward and no other handler moves. */
  ghost predicate Advances(s: System, t: System, c: Conn)
    requires c in s.conns
  {
    && t.conns.Keys == s.conns.Keys
    && Forward(s.conns[c].pc, t.conns[c].pc)
    && (forall d :: d in s.conns && d != c ==> t.conns[d].pc == s.conns[d].pc)
  }

  lemma EntryMovesForward(s: System, c: Conn, input: Input)
    requires PointersOk(s) && c in s.conns && EntryPc(s.conns[c].pc)
    ensures Advances(s, EntryStep(s, c, input), c)
  {
  }

  lemma SetupMovesForward(s: System, c: Conn, input: Input)
    requires PointersOk(s) && c in s.conns && SetupPc(s.conns[c].pc)
    ensures Advances(s, DisplayStep(s, c, input), c)
  {
    hide PointersOk, SetDisplay;
  }

  lemma ServiceMovesForward(s: System, c: Conn, input: Input)
    requires PointersOk(s) && c in s.conns && DisplayPc(s.conns[c].pc) && !SetupPc(s.conns[c].pc)
    ensures Advances(s, DisplayStep(s, c, input), c)
  {
    hide PointersOk, RemoveDisplay;
  }

  lemma AskingMovesForward(s: System, c: Conn, input: Input)
    requires PointersOk(s) && c in s.conns && AskingPc(s.conns[c].pc)
    ensures Advances(s, PresenterStep(s, c, input), c)
  {
    hide PointersOk, Authorize;
  }

  lemma GreetingMovesForward(s: System, c: Conn, input: Input)
    requires PointersOk(s) && c in s.conns && GreetingPc(s.conns[c].pc) && !s.conns[c].pc.Greeting?
    ensures Advances(s, PresenterStep(s, c, input), c)
  {
    hide PointersOk, Start;
  }

  lemma OfferingMovesForward(s: System, c: Conn, input: Input)
    requires PointersOk(s) && c in s.conns && s.conns[c].pc.Greeting?
    ensures Advances(s, PresenterStep(s, c, input), c)
  {
  }

  lemma SessionMovesForward(s: System, c: Conn, input: Input)
    requires PointersOk(s) && c in s.conns && SessionPc(s.conns[c].pc) && !s.conns[c].pc.Relaying?
    ensures Advances(s, PresenterStep(s, c, input), c)
  {
    hide PointersOk;
  }

  lemma RelayingMovesForward(s: System, c: Conn, input: Input)
    requires PointersOk(s) && c in s.conns && s.conns[c].pc.Relaying?
    ensures Advances(s, PresenterStep(s, c, input), c)
  {
    hide PointersOk;
  }

  lemma LeavingMovesForward(s: System, c: Conn, input: Input)
    requires PointersOk(s) && c in s.conns && (s.conns[c].pc.Releasing? || s.conns[c].pc.Notify?)
    ensures Advances(s, PresenterStep(s, c, input), c)
  {
    hide PointersOk, Release;
  }

  /** A handler takes at most one slot, once, and never returns to an earlier point:
      this is a fact about the handler programs, not an assumption. */
  lemma HandlersMoveForward(s: System, e: Event, t: System, c: Conn)
    requires Step(s, e, t) && c in s.conns
    ensures c in t.conns && Forward(s.conns[c].pc, t.conns[c].pc)
    ensures !(e.Run? && e.c == c) ==> t.conns[c].pc == s.conns[c].pc
    ensures e.Run? ==> t.conns.Keys == s.conns.Keys
  {
    if e.Run? {
      var pc := s.conns[e.c].pc;
      if EntryPc(pc) {
        EntryMovesForward(s, e.c, e.input);
      } else if SetupPc(pc) {
        SetupMovesForward(s, e.c, e.input);
      } else if DisplayPc(pc) {
        ServiceMovesForward(s, e.c, e.input);
      } else if AskingPc(pc) {
        AskingMovesForward(s, e.c, e.input);
      } else if pc.Greeting? {
        OfferingMovesForward(s, e.c, e.input);
      } else if pc.Relaying? {
        RelayingMovesForward(s, e.c, e.input);
      } else if GreetingPc(pc) {
        GreetingMovesForward(s, e.c, e.input);
      } else if SessionPc(pc) {
        SessionMovesForward(s, e.c, e.input);
      } else {
        LeavingMovesForward(s, e.c, e.input);
      }
    }
  }

  lemma StepAt(states: seq<System>, events: seq<Event>, i: nat)
    requires IsRun(states, events) && i < |events|
    ensures Step(states[i], events[i], states[i + 1])
  {
    assert StepOf(states, events, i);
  }

  lemma StepOfRun(states: seq<System>, events: seq<Event>, i: nat)
    requires IsRun(states, events) && i < |events|
    ensures Step(states[i], events[i], states[i + 1])
    ensures Inv(states[i]) && Inv(states[i + 1])
  {
    StepAt(states, events, i);
    RunKeepsInv(states, events, i);
    RunKeepsInv(states, events, i + 1);
  }

  // ----- rooms -----

  /** In every reachable state, for every Room object ever created: it is in the
      store under its ID exactly while it has a display, a presenter implies a
      display, there is at most one session, and that session joins the presenter
      to the display. */
  lemma RoomsAreConsistent(states: seq<System>, events: seq<Event>, i: nat, r: nat)
    requires IsRun(states, events) && i < |states| && r < |states[i].store.rooms|
    ensures
      var st := states[i].store;
      var room := st.rooms[r];
      && (room.display.Some? <==> room.id in st.live && st.live[room.id] == r)
      && (room.presenter.Some? ==> room.display.Some?)
      && |room.sessions| <= 1
      && (forall k :: k in room.sessions ==>
            room.presenter == Some(room.sessions[k].caller) && room.display == Some(room.sessions[k].callee))
  {
    RunKeepsInv(states, events, i);
    assert RoomOk(states[i].store, r);
  }

  /** A deleted Room object stays exactly as it is, empty, for the rest of the run. */
  lemma {:induction false} DeletedRoomsStayEmpty(states: seq<System>, events: seq<Event>, i: nat, j: nat, r: nat)
    requires IsRun(states, events) && i <= j < |states|
    requires r < |states[i].store.rooms| && states[i].store.rooms[r].display.None?
    ensures r < |states[j].store.rooms| && states[j].store.rooms[r] == states[i].store.rooms[r]
    ensures states[j].store.rooms[r].presenter.None? && states[j].store.rooms[r].sessions == map[]
    decreases j - i
  {
    hide Next;
    if i == j {
      RunKeepsInv(states, events, i);
      assert RoomOk(states[i].store, r);
      DetachedIsEmpty(states[i].store.rooms[r]);
    } else {
      DeletedRoomsStayEmpty(states, events, i, j - 1, r);
      StepOfRun(states, events, j - 1);
      DeletedIsFrozen(states[j - 1], events[j - 1], states[j], r);
    }
  }

  // ----- slots -----

  /** A connection is a room's display only while its handler is between SetDisplay
      and RemoveDisplay for that Room object, and its presenter only between
      AuthorizePresenter and ReleasePresenter; so no exit path leaks a slot. */
  lemma SlotsBelongToRunningHandlers(states: seq<System>, events: seq<Event>, i: nat, r: nat, c: Conn)
    requires IsRun(states, events) && i < |states| && r < |states[i].store.rooms|
    ensures states[i].store.rooms[r].display == Some(c) ==>
      c in states[i].conns && DisplaySlot(states[i].conns[c].pc) == Some(r)
    ensures states[i].store.rooms[r].presenter == Some(c) ==>
      c in states[i].conns && PresenterSlot(states[i].conns[c].pc) == Some(r)
  {
    RunKeepsInv(states, events, i);
    assert SlotOk(states[i], r);
  }

  lemma NothingLive(store: Store)
    requires StoreOk(store) && forall r :: 0 <= r < |store.rooms| ==> store.rooms[r].display.None?
    ensures store.live == map[]
  {
    forall id ensures id in store.live ==> RoomOk(store, store.live[id]) {
    }
    assert forall id :: id !in store.live;
  }

  /** Once every handler has returned, the store is empty and every slot is free. */
  lemma QuiescentIsEmpty(states: seq<System>, events: seq<Event>, i: nat)
    requires IsRun(states, events) && i < |states|
    requires forall c :: c in states[i].conns ==> states[i].conns[c].pc.Done?
    ensures states[i].store.live == map[] && states[i].preAuth == 0
    ensures forall r :: 0 <= r < |states[i].store.rooms| ==>
      var room := states[i].store.rooms[r];
      room.display.None? && room.presenter.None? && room.sessions == map[]
  {
    var s := states[i];
    RunKeepsInv(states, events, i);
    forall r | 0 <= r < |s.store.rooms|
      ensures s.store.rooms[r].display.None? && s.store.rooms[r].presenter.None? && s.store.rooms[r].sessions == map[]
    {
      assert SlotOk(s, r) && RoomOk(s.store, r);
      DetachedIsEmpty(s.store.rooms[r]);
    }
    NothingLive(s.store);
    assert InAuthSet(s) == {};
  }

  /** The semaphore counts the handlers inside initialAuth and never exceeds 128. */
  lemma PreAuthIsExact(states: seq<System>, events: seq<Event>, i: nat)
    requires IsRun(states, events) && i < |states|
    ensures states[i].preAuth == |InAuthSet(states[i])|
    ensures 0 <= states[i].preAuth <= 128
  {
    RunKeepsInv(states, events, i);
  }

  /** The number of its own steps within which a handler whose every read, write and
      check fails has returned; victims still to be closed add one each. */
  function StepsToExit(pc: PC): nat {
    match pc
    case Done => 0
    case Closing => 1
    case Rejected => 2
    case InAuth => 3
    case Entering => 4
    case LockCheck => 5
    case Sweeping(victims) => 2 + |victims|
    case Removing(_) => 4
    case Serving(_) => 5
    case RelayUp(_, _, _) => 6
    case SendReady(_, _) => 6
    case ReadCode(_) => 7
    case SendIce(_) => 8
    case Evicting(_, victims) => 9 + |victims|
    case Registering => 12
    case Notify(_, _, _) => 2
    case Releasing(_) => 3
    case Relaying(_, _, _) => 4
    case RelayDown(_, _, _, _) => 5
    case Confirm(_, _, _) => 5
    case Announce(_, _, _) => 6
    case Starting(_, _, _) => 7
    case AwaitStart(_, _, _) => 4
    case Greeting(_, _, _) => 5
    case Granted(_, _, _, _) => 6
    case Denied(_) => 2
    case Authorizing(_, _) => 7
    case CheckDisplay(_, _) => 8
    case Lookup(_) => 9
  }

  /** A handler whose connection is lost returns within that many of its own steps,
      whatever the other handlers do in between. */
  lemma LostHandlersExit(s: System, e: Event, t: System)
    requires Step(s, e, t) && e.Run? && !s.conns[e.c].isOpen && !e.input.ok
    ensures StepsToExit(t.conns[e.c].pc) < StepsToExit(s.conns[e.c].pc) <= 12 + |Victims(s.conns[e.c].pc)|
  {
    var c := e.c;
    var pc := s.conns[c].pc;
    if EntryPc(pc) {
    } else if DisplayPc(pc) {
      LostDisplayExits(s, c, e.input);
    } else {
      LostPresenterExits(s, c, e.input);
    }
  }

  lemma LostDisplayExits(s: System, c: Conn, input: Input)
    requires PointersOk(s) && c in s.conns && DisplayPc(s.conns[c].pc) && !s.conns[c].isOpen && !input.ok
    ensures StepsToExit(DisplayStep(s, c, input).conns[c].pc) < StepsToExit(s.conns[c].pc)
  {
    hide PointersOk;
  }

  lemma LostPresenterExits(s: System, c: Conn, input: Input)
    requires PointersOk(s) && c in s.conns && !s.conns[c].isOpen && !input.ok
    requires !EntryPc(s.conns[c].pc) && !DisplayPc(s.conns[c].pc)
    ensures StepsToExit(PresenterStep(s, c, input).conns[c].pc) < StepsToExit(s.conns[c].pc)
  {
    hide PointersOk;
    if AskingPc(s.conns[c].pc) || GreetingPc(s.conns[c].pc) {
      LostAskerExits(s, c, input);
    } else {
      LostSessionExits(s, c, input);
    }
  }

  lemma LostAskerExits(s: System, c: Conn, input: Input)
    requires PointersOk(s) && c in s.conns && !s.conns[c].isOpen && !input.ok
    requires AskingPc(s.conns[c].pc) || GreetingPc(s.conns[c].pc)
    ensures StepsToExit(PresenterStep(s, c, input).conns[c].pc) < StepsToExit(s.conns[c].pc)
  {
    hide PointersOk, Authorize, Start;
  }

  lemma LostSessionExits(s: System, c: Conn, input: Input)
    requires PointersOk(s) && c in s.conns && !s.conns[c].isOpen && !input.ok
    requires SessionPc(s.conns[c].pc) || s.conns[c].pc.Releasing? || s.conns[c].pc.Notify?
    ensures StepsToExit(PresenterStep(s, c, input).conns[c].pc) < StepsToExit(s.conns[c].pc)
  {
    hide PointersOk, Release;
  }

  // ----- eviction and late cleanup -----

  /** Only a connection that has not registered yet, and only by its own step,
      comes to hold a slot. */
  lemma SlotsAreTakenEarly(s: System, e: Event, t: System, r: nat, v: Conn)
    requires Inv(s) && Step(s, e, t) && r < |t.store.rooms|
    requires t.store.rooms[r].display == Some(v) || t.store.rooms[r].presenter == Some(v)
    requires Free(s, v)
    ensures e.Run? && e.c == v && Early(s.conns[v].pc)
  {
    hide Next, Perform;
    StepPerforms(s, e, t);
    PerformTakes(s.store, ActionOf(s, e), r, v);
    AskersAreEarly(s, e);
  }

  /** Only SetDisplay and AuthorizePresenter give anybody a slot, and only their caller. */
  lemma PerformTakes(st: Store, a: Action, r: nat, v: Conn)
    requires LiveIndexOk(st) && ((a.Asks? || a.Opens? || a.Frees?) ==> a.r < |st.rooms|)
    requires r < |Perform(st, a).rooms|
    requires Perform(st, a).rooms[r].display == Some(v) || Perform(st, a).rooms[r].presenter == Some(v)
    requires forall q :: 0 <= q < |st.rooms| ==> st.rooms[q].display != Some(v) && st.rooms[q].presenter != Some(v)
    ensures (a.Sets? || a.Asks?) && a.c == v
  {
  }

  lemma AskersAreEarly(s: System, e: Event)
    requires PointersOk(s) && Enabled(s, e) && (ActionOf(s, e).Sets? || ActionOf(s, e).Asks?)
    ensures e.Run? && e.c == ActionOf(s, e).c && Early(s.conns[e.c].pc)
  {
    hide PointersOk;
  }

  lemma SpentStep(s: System, e: Event, t: System, v: Conn)
    requires Inv(s) && Step(s, e, t) && Spent(s, v)
    ensures Spent(t, v)
  {
    HandlersMoveForward(s, e, t, v);
    forall r | 0 <= r < |t.store.rooms|
      ensures t.store.rooms[r].display != Some(v) && t.store.rooms[r].presenter != Some(v)
    {
      if t.store.rooms[r].display == Some(v) || t.store.rooms[r].presenter == Some(v) {
        SlotsAreTakenEarly(s, e, t, r, v);
      }
    }
  }

  lemma {:induction false} SpentForever(states: seq<System>, events: seq<Event>, i: nat, j: nat, v: Conn)
    requires IsRun(states, events) && i <= j < |states| && Spent(states[i], v)
    ensures Spent(states[j], v)
    decreases j - i
  {
    hide Next, Inv, Spent;
    if i < j {
      SpentForever(states, events, i, j - 1, v);
      StepOfRun(states, events, j - 1);
      SpentStep(states[j - 1], events[j - 1], states[j], v);
    }
  }

  /** What a handler finds when it cleans up after losing its slot: nothing to
      change, nobody to close, nobody to notify. */
  lemma LateCleanupIsHarmless(s: System, e: Event, t: System)
    requires Inv(s) && Step(s, e, t) && e.Run? && Spent(s, e.c)
    requires s.conns[e.c].pc.Removing? || s.conns[e.c].pc.Releasing?
    ensures t.store == s.store
    ensures t.conns[e.c].pc == (if s.conns[e.c].pc.Removing? then Sweeping([]) else Closing)
    ensures forall d :: d in s.conns && d != e.c ==> t.conns[d] == s.conns[d]
  {
    var pc := s.conns[e.c].pc;
    if pc.Removing? {
      RemovesIffHeld(s, e.c);
    } else {
      assert WithRoom(s.store, pc.r, s.store.rooms[pc.r]).rooms == s.store.rooms;
    }
  }
}
