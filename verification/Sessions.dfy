/** Who a handler deals with, over whole runs: connections of the other kind, its own room,
    and the session that it was told. */
module Sessions {
  import opened Wrappers
  import opened Rooms
  import opened Signalling
  import opened SlotInvariant
  import opened RoomActions
  import opened SignallingTheorems
  import opened Reservations
  import opened Writes
  import opened Upward

  // ----- handlers write to connections of the other kind -----

  predicate Fits(kind: Kind, pc: PC) {
    if kind.DisplayKind? then (EntryPc(pc) && !pc.LockCheck?) || DisplayPc(pc)
    else !DisplayPc(pc) && !pc.Rejected?
  }

  /** The other connection that a handler writes to. */
  function Addressee(pc: PC): Option<Conn> {
    if pc.Notify? then Some(pc.display) else if pc.RelayUp? then Some(pc.caller) else Kept(pc)
  }

  ghost predicate KindOk(s: System, c: Conn)
    requires c in s.conns
  {
    && Fits(s.conns[c].kind, s.conns[c].pc)
    && (Addressee(s.conns[c].pc).Some? ==>
          var d := Addressee(s.conns[c].pc).value;
          d in s.conns && s.conns[d].kind != s.conns[c].kind)
  }

  ghost predicate KindsOk(s: System) {
    forall c :: c in s.conns ==> KindOk(s, c)
  }

  lemma HoldersFit(s: System, r: nat)
    requires Inv(s) && KindsOk(s) && r < |s.store.rooms|
    ensures
      var room := s.store.rooms[r];
      && (room.display.Some? ==>
            room.display.value in s.conns && s.conns[room.display.value].kind.DisplayKind?)
      && (room.presenter.Some? ==>
            room.presenter.value in s.conns && s.conns[room.presenter.value].kind.PresenterKind?)
  {
    var room := s.store.rooms[r];
    assert SlotOk(s, r);
    assert room.display.Some? ==> KindOk(s, room.display.value);
    assert room.presenter.Some? ==> KindOk(s, room.presenter.value);
  }

  lemma EntryFits(s: System, c: Conn, input: Input)
    requires c in s.conns && EntryPc(s.conns[c].pc) && Fits(s.conns[c].kind, s.conns[c].pc)
    ensures var pc := EntryStep(s, c, input).conns[c].pc; Fits(s.conns[c].kind, pc) && Addressee(pc).None?
  {
  }

  lemma ServingFits(s: System, c: Conn, input: Input)
    requires Inv(s) && PointersOk(s) && c in s.conns && s.conns[c].pc.Serving?
    ensures
      var r, pc := s.conns[c].pc.r, DisplayStep(s, c, input).conns[c].pc;
      Fits(DisplayKind, pc) && (Addressee(pc).Some? ==> s.store.rooms[r].presenter == Addressee(pc))
  {
    assert RoomOk(s.store, s.conns[c].pc.r);
  }

  lemma DisplaysFit(s: System, c: Conn, input: Input)
    requires PointersOk(s) && c in s.conns && DisplayPc(s.conns[c].pc) && !s.conns[c].pc.Serving?
    ensures var pc := DisplayStep(s, c, input).conns[c].pc; Fits(DisplayKind, pc) && Addressee(pc).None?
  {
    hide PointersOk, SetDisplay, RemoveDisplay;
  }

  /** b is a presenter's, and writes to nobody but a's addressee or this one. */
  predicate PresenterGoes(a: PC, b: PC, found: Option<Conn>) {
    Fits(PresenterKind, b) && (Addressee(b).Some? ==> Addressee(b) == Addressee(a) || Addressee(b) == found)
  }

  lemma AuthorizingFits(s: System, c: Conn, input: Input)
    requires PointersOk(s) && c in s.conns && s.conns[c].pc.Authorizing?
    ensures
      var a, b := s.conns[c].pc, PresenterStep(s, c, input).conns[c].pc;
      PresenterGoes(a, b, s.store.rooms[a.r].display)
  {
  }

  lemma AskersFit(s: System, c: Conn, input: Input)
    requires PointersOk(s) && c in s.conns && AskingPc(s.conns[c].pc) && !s.conns[c].pc.Authorizing?
    ensures PresenterGoes(s.conns[c].pc, PresenterStep(s, c, input).conns[c].pc, None)
  {
    hide PointersOk, Authorize;
  }

  lemma GreetersFit(s: System, c: Conn, input: Input)
    requires PointersOk(s) && c in s.conns && GreetingPc(s.conns[c].pc)
    ensures PresenterGoes(s.conns[c].pc, PresenterStep(s, c, input).conns[c].pc, None)
  {
    hide PointersOk, Start;
  }

  lemma OpenersFit(s: System, c: Conn, input: Input)
    requires PointersOk(s) && c in s.conns && (s.conns[c].pc.Announce? || s.conns[c].pc.Confirm?)
    ensures PresenterGoes(s.conns[c].pc, PresenterStep(s, c, input).conns[c].pc, None)
  {
    hide PointersOk;
  }

  lemma ReadersFit(s: System, c: Conn, input: Input)
    requires PointersOk(s) && c in s.conns && s.conns[c].pc.Relaying?
    ensures PresenterGoes(s.conns[c].pc, PresenterStep(s, c, input).conns[c].pc, None)
  {
    hide PointersOk;
  }

  lemma WritersFit(s: System, c: Conn, input: Input)
    requires PointersOk(s) && c in s.conns && (s.conns[c].pc.RelayDown? || s.conns[c].pc.Notify?)
    ensures PresenterGoes(s.conns[c].pc, PresenterStep(s, c, input).conns[c].pc, None)
  {
    hide PointersOk;
  }

  lemma ReleasingFits(s: System, c: Conn, input: Input)
    requires PointersOk(s) && c in s.conns && s.conns[c].pc.Releasing?
    ensures
      var a, b := s.conns[c].pc, PresenterStep(s, c, input).conns[c].pc;
      PresenterGoes(a, b, s.store.rooms[a.r].display)
  {
  }

  lemma ActorFits(s: System, e: Event, t: System)
    requires Inv(s) && KindsOk(s) && Step(s, e, t) && e.Run? && e.c in t.conns
    ensures Fits(s.conns[e.c].kind, t.conns[e.c].pc)
    ensures Addressee(t.conns[e.c].pc).Some? ==>
      var d := Addressee(t.conns[e.c].pc).value;
      d in s.conns && s.conns[d].kind != s.conns[e.c].kind
  {
    hide EntryStep, DisplayStep, PresenterStep, Inv;
    var c, pc := e.c, s.conns[e.c].pc;
    assert KindOk(s, c);
    if PcRoom(pc).Some? {
      HoldersFit(s, PcRoom(pc).value);
    }
    if EntryPc(pc) {
      EntryFits(s, c, e.input);
    } else if pc.Serving? {
      ServingFits(s, c, e.input);
    } else if DisplayPc(pc) {
      DisplaysFit(s, c, e.input);
    } else if pc.Authorizing? {
      AuthorizingFits(s, c, e.input);
    } else if AskingPc(pc) {
      AskersFit(s, c, e.input);
    } else if GreetingPc(pc) {
      GreetersFit(s, c, e.input);
    } else if pc.Releasing? {
      ReleasingFits(s, c, e.input);
    } else if pc.Relaying? {
      ReadersFit(s, c, e.input);
    } else if SessionPc(pc) && !pc.RelayDown? {
      OpenersFit(s, c, e.input);
    } else {
      WritersFit(s, c, e.input);
    }
  }

  lemma StepKeepsKinds(s: System, e: Event, t: System)
    requires Inv(s) && KindsOk(s) && Step(s, e, t)
    ensures KindsOk(t)
  {
    hide Inv, EntryStep, DisplayStep, PresenterStep, WritesOf;
    forall c | c in t.conns ensures KindOk(t, c) {
      if c in s.conns {
        HandlersMoveForward(s, e, t, c);
        StepAppends(s, e, t, c);
        assert KindOk(s, c);
        if e.Run? && e.c == c {
          ActorFits(s, e, t);
        }
        if Addressee(t.conns[c].pc).Some? {
          StepAppends(s, e, t, Addressee(t.conns[c].pc).value);
        }
      } else if e.Run? {
        HandlersMoveForward(s, e, t, e.c);
      }
    }
  }

  lemma {:induction false} RunKeepsKinds(states: seq<System>, events: seq<Event>, n: nat)
    requires IsRun(states, events) && n < |states|
    ensures KindsOk(states[n])
  {
    if n > 0 {
      hide Next, Inv, KindsOk;
      RunKeepsKinds(states, events, n - 1);
      StepOfRun(states, events, n - 1);
      StepKeepsKinds(states[n - 1], events[n - 1], states[n]);
    }
  }

  // ----- a handler's room is its own -----

  /** A handler uses no Room object but its own room's. */
  ghost predicate InOwnRoom(s: System, c: Conn)
    requires c in s.conns
  {
    PcRoom(s.conns[c].pc).Some? ==>
      var r := PcRoom(s.conns[c].pc).value;
      r < |s.store.rooms| && s.store.rooms[r].id == s.conns[c].id
  }

  lemma EntryHoldsNoRoom(s: System, c: Conn, input: Input)
    requires c in s.conns && EntryPc(s.conns[c].pc)
    ensures PcRoom(EntryStep(s, c, input).conns[c].pc).None?
  {
  }

  lemma RegistrationFindsOwnRoom(s: System, c: Conn, input: Input)
    requires PointersOk(s) && c in s.conns && s.conns[c].pc.Registering?
    ensures
      var t := DisplayStep(s, c, input);
      var r := PcRoom(t.conns[c].pc);
      r.Some? && r.value < |t.store.rooms| && t.store.rooms[r.value].id == s.conns[c].id
  {
  }

  lemma DisplaysKeepRoom(s: System, c: Conn, input: Input)
    requires PointersOk(s) && c in s.conns && DisplayPc(s.conns[c].pc) && !s.conns[c].pc.Registering?
    ensures var r := PcRoom(DisplayStep(s, c, input).conns[c].pc); r.Some? ==> r == PcRoom(s.conns[c].pc)
  {
    hide PointersOk, RemoveDisplay;
  }

  lemma AskersKeepRoom(s: System, c: Conn, input: Input)
    requires PointersOk(s) && c in s.conns && (AskingPc(s.conns[c].pc) || GreetingPc(s.conns[c].pc))
    ensures
      var r := PcRoom(PresenterStep(s, c, input).conns[c].pc);
      r.Some? && !s.conns[c].pc.Lookup? ==> r == PcRoom(s.conns[c].pc)
    ensures
      var r := PcRoom(PresenterStep(s, c, input).conns[c].pc);
      r.Some? && s.conns[c].pc.Lookup? ==>
        s.conns[c].id in s.store.live && r.value == s.store.live[s.conns[c].id]
  {
    hide PointersOk, Authorize, Start;
  }

  lemma SessionsKeepRoom(s: System, c: Conn, input: Input)
    requires PointersOk(s) && c in s.conns && !EntryPc(s.conns[c].pc) && !DisplayPc(s.conns[c].pc)
    requires !AskingPc(s.conns[c].pc) && !GreetingPc(s.conns[c].pc)
    ensures var r := PcRoom(PresenterStep(s, c, input).conns[c].pc); r.Some? ==> r == PcRoom(s.conns[c].pc)
  {
    hide PointersOk, Release;
  }

  lemma OwnRoomStep(s: System, e: Event, t: System, c: Conn)
    requires Inv(s) && Step(s, e, t) && c in t.conns && (c in s.conns ==> InOwnRoom(s, c))
    ensures InOwnRoom(t, c)
  {
    hide EntryStep, DisplayStep, PresenterStep, WritesOf, Inv;
    if c in s.conns {
      HandlersMoveForward(s, e, t, c);
      StepAppends(s, e, t, c);
      if PcRoom(s.conns[c].pc).Some? {
        HitsMoveGeneration(s, e, t, PcRoom(s.conns[c].pc).value);
      }
      if e.Run? && e.c == c {
        ActorKeepsRoom(s, e, t);
      }
    } else if e.Run? {
      HandlersMoveForward(s, e, t, e.c);
    }
  }

  lemma ActorKeepsRoom(s: System, e: Event, t: System)
    requires Inv(s) && Step(s, e, t) && e.Run? && e.c in t.conns
    ensures
      var a, b := PcRoom(s.conns[e.c].pc), PcRoom(t.conns[e.c].pc);
      b.Some? ==> b == a || (b.value < |t.store.rooms| && t.store.rooms[b.value].id == s.conns[e.c].id)
  {
    hide EntryStep, DisplayStep, PresenterStep, Inv;
    var c, pc := e.c, s.conns[e.c].pc;
    if EntryPc(pc) {
      EntryHoldsNoRoom(s, c, e.input);
    } else if pc.Registering? {
      RegistrationFindsOwnRoom(s, c, e.input);
    } else if DisplayPc(pc) {
      DisplaysKeepRoom(s, c, e.input);
    } else if AskingPc(pc) || GreetingPc(pc) {
      AskersKeepRoom(s, c, e.input);
      if s.conns[c].id in s.store.live {
        HitsMoveGeneration(s, e, t, s.store.live[s.conns[c].id]);
      }
    } else {
      SessionsKeepRoom(s, c, e.input);
    }
  }

  /** At every point of every run the Room object that a handler uses is one of the room it
      was asked for. */
  lemma {:induction false} HandlersUseTheirRoom(states: seq<System>, events: seq<Event>, n: nat, c: Conn)
    requires IsRun(states, events) && n < |states| && c in states[n].conns
    ensures InOwnRoom(states[n], c)
  {
    hide Next, Inv, InOwnRoom;
    if n == 0 {
      assert false;
    } else {
      StepOfRun(states, events, n - 1);
      if c in states[n - 1].conns {
        HandlersUseTheirRoom(states, events, n - 1, c);
      }
      OwnRoomStep(states[n - 1], events[n - 1], states[n], c);
    }
  }

  // ----- the session a presenter was told is the live one -----

  /** The Room object, the display and the session ID of a handler past StartSession. */
  function SessionAt(pc: PC): Option<(nat, Conn, string)> {
    match pc
    case Announce(r, d, sid) => Some((r, d, sid))
    case Confirm(r, d, sid) => Some((r, d, sid))
    case Relaying(r, d, sid) => Some((r, d, sid))
    case RelayDown(r, d, sid, _) => Some((r, d, sid))
    case _ => None
  }

  /** As long as c has the slot, its session is the only one, and joins it to that display. */
  ghost predicate SessionIsLive(s: System, c: Conn)
    requires c in s.conns
  {
    SessionAt(s.conns[c].pc).Some? ==>
      var (r, d, sid) := SessionAt(s.conns[c].pc).value;
      && r < |s.store.rooms|
      && (s.store.rooms[r].presenter == Some(c) ==>
            s.store.rooms[r].display == Some(d) && s.store.rooms[r].sessions == map[sid := Session(sid, c, d)])
  }

  lemma SessionStays(s: System, c: Conn, input: Input)
    requires PointersOk(s) && c in s.conns && SessionPc(s.conns[c].pc)
    ensures
      var t := PresenterStep(s, c, input);
      c in t.conns && (SessionAt(t.conns[c].pc).Some? ==> SessionAt(t.conns[c].pc) == SessionAt(s.conns[c].pc))
  {
    hide PointersOk;
  }

  lemma SessionsStart(s: System, e: Event, t: System, c: Conn)
    requires Step(s, e, t) && c in t.conns && SessionAt(t.conns[c].pc).Some?
    requires c in s.conns ==> !SessionPc(s.conns[c].pc)
    ensures e.Run? && e.c == c && c in s.conns && s.conns[c].pc.Starting?
  {
    hide PointersOk, EntryStep, DisplayStep, PresenterStep;
    if c in s.conns {
      HandlersMoveForward(s, e, t, c);
    }
    if e.Run? {
      HandlersMoveForward(s, e, t, e.c);
      if e.c == c && !s.conns[c].pc.Starting? {
        if EntryPc(s.conns[c].pc) {
          EntryStartsNone(s, c, e.input);
        } else if DisplayPc(s.conns[c].pc) {
          DisplayStartsNone(s, c, e.input);
        } else {
          PresenterStartsOnce(s, c, e.input);
        }
      }
    }
  }

  lemma EntryStartsNone(s: System, c: Conn, input: Input)
    requires c in s.conns && EntryPc(s.conns[c].pc)
    ensures SessionAt(EntryStep(s, c, input).conns[c].pc).None?
  {
  }

  lemma DisplayStartsNone(s: System, c: Conn, input: Input)
    requires PointersOk(s) && c in s.conns && DisplayPc(s.conns[c].pc)
    ensures SessionAt(DisplayStep(s, c, input).conns[c].pc).None?
  {
    hide PointersOk, SetDisplay, RemoveDisplay;
  }

  lemma PresenterStartsOnce(s: System, c: Conn, input: Input)
    requires PointersOk(s) && c in s.conns && !SessionPc(s.conns[c].pc) && !s.conns[c].pc.Starting?
    requires !EntryPc(s.conns[c].pc) && !DisplayPc(s.conns[c].pc)
    ensures SessionAt(PresenterStep(s, c, input).conns[c].pc).None?
  {
    hide PointersOk, Authorize, Release;
  }

  /** Only c's own step can give c a slot or open or end its session. */
  lemma OthersKeepSession(st: Store, a: Action, r: nat, c: Conn)
    requires LiveIndexOk(st) && r < |st.rooms| && ((a.Asks? || a.Opens? || a.Frees?) ==> a.r < |st.rooms|)
    requires !a.NoAction? ==> a.c != c
    requires r < |Perform(st, a).rooms| && Perform(st, a).rooms[r].presenter == Some(c)
    ensures
      var after := Perform(st, a).rooms[r];
      st.rooms[r].presenter == Some(c) && after.display == st.rooms[r].display && after.sessions == st.rooms[r].sessions
  {
  }

  lemma LiveSessionStep(s: System, e: Event, t: System, c: Conn)
    requires Inv(s) && Step(s, e, t) && c in t.conns && (c in s.conns ==> SessionIsLive(s, c))
    ensures SessionIsLive(t, c)
  {
    hide Next, Perform;
    if SessionAt(t.conns[c].pc).Some? {
      var (r, d, sid) := SessionAt(t.conns[c].pc).value;
      if c !in s.conns || !SessionPc(s.conns[c].pc) {
        SessionsStart(s, e, t, c);
        StartIsLive(s, e, t, c);
      } else {
        HandlersMoveForward(s, e, t, c);
        StepPerforms(s, e, t);
        HitsMoveGeneration(s, e, t, r);
        if e.Run? && e.c == c {
          SessionStepIsQuiet(s, e, t);
        } else if t.store.rooms[r].presenter == Some(c) {
          ActorOf(s, e);
          OthersKeepSession(s.store, ActionOf(s, e), r, c);
        }
      }
    }
  }

  lemma ActorOf(s: System, e: Event)
    requires PointersOk(s) && Enabled(s, e)
    ensures !ActionOf(s, e).NoAction? ==> e.Run? && ActionOf(s, e).c == e.c
  {
  }

  lemma SessionStepIsQuiet(s: System, e: Event, t: System)
    requires Step(s, e, t) && e.Run? && SessionPc(s.conns[e.c].pc)
    ensures t.store == s.store
    ensures e.c in t.conns
    ensures SessionAt(t.conns[e.c].pc).Some? ==> SessionAt(t.conns[e.c].pc) == SessionAt(s.conns[e.c].pc)
  {
    hide PresenterStep, EntryStep, DisplayStep;
    SessionStays(s, e.c, e.input);
    NoActionKeepsStore(s, e, t);
  }

  lemma StartIsLive(s: System, e: Event, t: System, c: Conn)
    requires Inv(s) && Step(s, e, t) && e.Run? && e.c == c && c in s.conns && s.conns[c].pc.Starting?
    requires c in t.conns && SessionAt(t.conns[c].pc).Some?
    ensures SessionIsLive(t, c)
  {
    var pc := s.conns[c].pc;
    assert ConnOk(s, c);
    StartOpens(s, e, t, c, pc.r, pc.display, pc.gen);
  }

  /** A presenter that still has its slot gives it back together with its session, and its
      handler then owes the display the ID of that session, if there is one, and the code
      that the room has now. */
  lemma ReleaseNotifiesDisplay(s: System, e: Event, t: System)
    requires Inv(s) && Step(s, e, t) && e.Run? && s.conns[e.c].pc.Releasing?
    ensures
      var r, pc := s.conns[e.c].pc.r, t.conns[e.c].pc;
      && r < |s.store.rooms| && r < |t.store.rooms|
      && var room := s.store.rooms[r];
      if room.presenter == Some(e.c) then
        && t.store.rooms[r] == room.(presenter := None, sessions := map[])
        && pc.Notify? && room.display == Some(pc.display) && pc.code == room.code
        && (if room.sessions == map[] then pc.sid == "" else pc.sid in room.sessions)
      else t.store.rooms[r] == room && pc == Closing
  {
    assert RoomOk(s.store, s.conns[e.c].pc.r);
  }

  lemma {:induction false} AnnouncedSessionIsLive(states: seq<System>, events: seq<Event>, n: nat, c: Conn)
    requires IsRun(states, events) && n < |states| && c in states[n].conns
    ensures SessionIsLive(states[n], c)
  {
    hide Next, Inv, SessionIsLive;
    if n == 0 {
      assert false;
    } else {
      StepOfRun(states, events, n - 1);
      if c in states[n - 1].conns {
        AnnouncedSessionIsLive(states, events, n - 1, c);
      }
      LiveSessionStep(states[n - 1], events[n - 1], states[n], c);
    }
  }

  /** While presenter p has the slot of its room, a display's loop for that room takes up
      for p exactly the answers and callee candidates under the session ID that p was told. */
  lemma AnswersGoToTheToldSession(states: seq<System>, events: seq<Event>, n: nat, c: Conn, p: Conn)
    requires IsRun(states, events) && n < |events| && p in states[n].conns
    requires events[n].Run? && events[n].c == c && c in states[n].conns && events[n].input.ok
    requires states[n].conns[c].pc.Serving? && SessionAt(states[n].conns[p].pc).Some?
    requires states[n].conns[c].pc.r == SessionAt(states[n].conns[p].pc).value.0
    requires states[n].conns[c].pc.r < |states[n].store.rooms|
    requires states[n].store.rooms[states[n].conns[c].pc.r].presenter == Some(p)
    ensures
      var m := events[n].input.msg;
      AcceptedAt(states[n], events[n], c, p) ==
        if RelayedUp(m) && m.session == SessionAt(states[n].conns[p].pc).value.2 then [m] else []
  {
    AnnouncedSessionIsLive(states, events, n, p);
  }
}
