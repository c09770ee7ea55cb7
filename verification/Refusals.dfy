/** Why a presenter or display is refused: what each refusal tells about the rooms and the
    semaphore at that moment of a run. */
module Refusals {
  import opened Wrappers
  import opened Rooms
  import opened Signalling
  import opened SlotInvariant
  import opened RoomActions
  import opened SignallingTheorems

  /** This step adds exactly one message of this type to the log of c, which is connected. */
  ghost predicate Tells(s: System, t: System, c: Conn, typ: MsgType) {
    c in s.conns && c in t.conns && t.conns[c].sent == s.conns[c].sent + [Msg(typ, "", "")]
  }

  // ----- serverBusy -----

  /** A connection enters initialAuth exactly if fewer than 128 others are in it, and is
      told serverBusy otherwise. */
  lemma BusyIffFull(states: seq<System>, events: seq<Event>, i: nat, c: Conn)
    requires IsRun(states, events) && i < |events| && events[i].Run? && events[i].c == c
    requires c in states[i].conns && states[i].conns[c].pc.Entering? && states[i].conns[c].isOpen
    ensures c in states[i + 1].conns
    ensures |InAuthSet(states[i])| < 128 ==> states[i + 1].conns[c].pc.InAuth?
    ensures |InAuthSet(states[i])| >= 128 ==>
      Tells(states[i], states[i + 1], c, ServerBusy) && !states[i + 1].conns[c].pc.InAuth?
  {
    StepOfRun(states, events, i);
  }

  // ----- displayNotFound -----

  /** Some Room object of this room has a display. */
  ghost predicate HasDisplay(st: Store, id: string) {
    exists r :: 0 <= r < |st.rooms| && st.rooms[r].id == id && st.rooms[r].display.Some?
  }

  lemma LiveIffDisplay(st: Store, id: string)
    requires StoreOk(st)
    ensures id in st.live <==> HasDisplay(st, id)
    ensures id in st.live ==> st.rooms[st.live[id]].display.Some?
  {
    if id in st.live {
      assert RoomOk(st, st.live[id]);
    }
    forall r | 0 <= r < |st.rooms| && st.rooms[r].id == id && st.rooms[r].display.Some? ensures id in st.live {
      assert RoomOk(st, r);
    }
  }

  /** After its code was read a presenter goes on exactly if its room has a display, with the
      Room object that has it, and is told displayNotFound otherwise. */
  lemma LookupFindsIff(states: seq<System>, events: seq<Event>, i: nat, c: Conn)
    requires IsRun(states, events) && i < |events| && events[i].Run? && events[i].c == c
    requires c in states[i].conns && states[i].conns[c].pc.Lookup? && states[i].conns[c].isOpen
    ensures c in states[i + 1].conns
    ensures HasDisplay(states[i].store, states[i].conns[c].id) ==>
      var pc := states[i + 1].conns[c].pc;
      && pc.CheckDisplay? && pc.code == states[i].conns[c].pc.code && pc.r < |states[i].store.rooms|
      && states[i].store.rooms[pc.r].id == states[i].conns[c].id && states[i].store.rooms[pc.r].display.Some?
    ensures !HasDisplay(states[i].store, states[i].conns[c].id) ==>
      Tells(states[i], states[i + 1], c, DisplayNotFound) && states[i + 1].conns[c].pc == Closing
  {
    hide HasDisplay;
    StepOfRun(states, events, i);
    LiveIffDisplay(states[i].store, states[i].conns[c].id);
  }

  /** The second question is put to that Room object. */
  lemma CheckFindsIff(states: seq<System>, events: seq<Event>, i: nat, c: Conn)
    requires IsRun(states, events) && i < |events| && events[i].Run? && events[i].c == c
    requires c in states[i].conns && states[i].conns[c].pc.CheckDisplay? && states[i].conns[c].isOpen
    ensures c in states[i + 1].conns
    ensures
      var pc := states[i].conns[c].pc;
      && pc.r < |states[i].store.rooms|
      && if states[i].store.rooms[pc.r].display.Some? then states[i + 1].conns[c].pc == Authorizing(pc.r, pc.code)
         else Tells(states[i], states[i + 1], c, DisplayNotFound) && states[i + 1].conns[c].pc == Closing
  {
    StepOfRun(states, events, i);
  }

  // ----- presenterBusy, invalidCode and lockedOut -----

  predicate DeniedOrGone(pc: PC, r: nat) {
    pc == Denied(r) || pc.Closing? || pc.Done?
  }

  lemma DeniedLeaves(s: System, e: Event, t: System, c: Conn, r: nat)
    requires Step(s, e, t) && c in s.conns && DeniedOrGone(s.conns[c].pc, r)
    ensures c in t.conns && DeniedOrGone(t.conns[c].pc, r)
  {
    hide PointersOk;
    HandlersMoveForward(s, e, t, c);
  }

  lemma {:induction false} DeniedUntilTold(states: seq<System>, events: seq<Event>, i: nat, j: nat, c: Conn, r: nat)
    requires IsRun(states, events) && i <= j < |states|
    requires c in states[i].conns && DeniedOrGone(states[i].conns[c].pc, r)
    ensures c in states[j].conns && DeniedOrGone(states[j].conns[c].pc, r)
    decreases j - i
  {
    if i < j {
      hide Next;
      DeniedUntilTold(states, events, i, j - 1, c, r);
      StepAt(states, events, j - 1);
      DeniedLeaves(states[j - 1], events[j - 1], states[j], c, r);
    }
  }

  lemma AsksAboutRoom(s: System, e: Event, t: System)
    requires Step(s, e, t) && e.Run? && s.conns[e.c].pc.Authorizing? && t.conns[e.c].pc.Denied?
    ensures
      var pc := s.conns[e.c].pc;
      t.conns[e.c].pc == Denied(pc.r) && !Authorizes(s.store.rooms[pc.r], pc.code)
  {
  }

  /** What the refusal says: presenterBusy if the slot is taken, and otherwise what the
      lockout table answered to the failed code. */
  lemma DenialTells(s: System, e: Event, t: System)
    requires Inv(s) && Step(s, e, t) && e.Run? && s.conns[e.c].pc.Denied? && s.conns[e.c].isOpen
    ensures
      var r := s.conns[e.c].pc.r;
      && r < |s.store.rooms|
      && Tells(s, t, e.c, if s.store.rooms[r].presenter.Some? then PresenterBusy
                          else if e.input.ok then InvalidCode else LockedOut)
  {
    assert RoomOk(s.store, s.conns[e.c].pc.r);
  }

  /** A presenter whose code was refused at i is told at j that the slot is taken exactly if
      it is taken then, and never by that presenter itself; otherwise it is told what the
      lockout table answered. If nothing about the room changed in between, it is told
      presenterBusy exactly if the slot was what was missing; else its code was wrong or
      the display was gone. */
  lemma DenialIsExplained(states: seq<System>, events: seq<Event>, i: nat, j: nat, c: Conn)
    requires IsRun(states, events) && i < j < |events|
    requires events[i].Run? && events[i].c == c && c in states[i].conns && states[i].conns[c].pc.Authorizing?
    requires c in states[i + 1].conns && states[i + 1].conns[c].pc.Denied?
    requires events[j].Run? && events[j].c == c && c in states[j].conns && states[j].conns[c].pc.Denied?
    requires states[j].conns[c].isOpen
    ensures
      var (r, code) := (states[i].conns[c].pc.r, states[i].conns[c].pc.code);
      && r < |states[i].store.rooms| && r < |states[j].store.rooms|
      && var before, now := states[i].store.rooms[r], states[j].store.rooms[r];
      && Tells(states[j], states[j + 1], c, if now.presenter.Some? then PresenterBusy
                                            else if events[j].input.ok then InvalidCode else LockedOut)
      && now.presenter != Some(c)
      && (now == before && now.presenter.None? ==> now.display.None? || code != now.code)
  {
    hide Next, Tells;
    var r := states[i].conns[c].pc.r;
    StepOfRun(states, events, i);
    AsksAboutRoom(states[i], events[i], states[i + 1]);
    DeniedUntilTold(states, events, i + 1, j, c, r);
    StepOfRun(states, events, j);
    DenialTells(states[j], events[j], states[j + 1]);
    DeniedHoldsNothing(states[j], c, r);
  }

  lemma DeniedHoldsNothing(s: System, c: Conn, r: nat)
    requires Inv(s) && c in s.conns && s.conns[c].pc.Denied? && r < |s.store.rooms|
    ensures s.store.rooms[r].presenter != Some(c)
  {
    SlotsByPc(s, c);
  }
}
