/** Who is closed by other handlers, over whole runs: exactly those whose slot a display
    change took. */
module Evictions {
  import opened Wrappers
  import opened Rooms
  import opened Signalling
  import opened SlotInvariant
  import opened RoomActions
  import opened SignallingTheorems
  import opened Exits

  predicate Holds(s: System, r: nat, v: Conn) {
    r < |s.store.rooms| && (s.store.rooms[r].display == Some(v) || s.store.rooms[r].presenter == Some(v))
  }

  /** The step of another handler takes from v its slot of Room object r. */
  predicate Displaces(s: System, e: Event, t: System, r: nat, v: Conn) {
    e.Run? && e.c != v && Holds(s, r, v) && !Holds(t, r, v)
  }

  // ----- whoever is displaced is closed -----

  /** v is still to be closed, by the loop that follows SetDisplay or by the deferred one
      that follows RemoveDisplay. */
  predicate Awaits(pc: PC, deferred: bool, v: Conn) {
    (if deferred then pc.Sweeping? else pc.Evicting?) && v in pc.victims
  }

  /** Only the two display changes displace anybody. */
  lemma DisplacersChangeDisplays(s: System, e: Event, t: System, r: nat, v: Conn)
    requires Inv(s) && Step(s, e, t) && Displaces(s, e, t, r, v)
    ensures s.conns[e.c].pc.Registering? || s.conns[e.c].pc.Removing?
  {
    hide Next;
    StepPerforms(s, e, t);
    var a := ActionOf(s, e);
    assert RoomOk(s.store, r);
    if a.Frees? || a.Asks? || a.Opens? {
      SlotsOfOthersStay(s.store, a, r, v);
    }
  }

  lemma SlotsOfOthersStay(st: Store, a: Action, r: nat, v: Conn)
    requires LiveIndexOk(st) && r < |st.rooms| && (a.Asks? || a.Opens? || a.Frees?) && a.r < |st.rooms| && a.c != v
    requires st.rooms[r].presenter == Some(v) || st.rooms[r].display == Some(v)
    ensures
      var after := Perform(st, a).rooms;
      |after| == |st.rooms| && (after[r].presenter == Some(v) || after[r].display == Some(v))
  {
  }

  lemma RegistrationListsLosers(s: System, c: Conn, input: Input, r: nat, v: Conn)
    requires Inv(s) && c in s.conns && s.conns[c].pc.Registering? && PointersOk(s) && Holds(s, r, v)
    requires !Holds(DisplayStep(s, c, input), r, v)
    ensures Awaits(DisplayStep(s, c, input).conns[c].pc, false, v)
  {
    assert RoomOk(s.store, r);
  }

  lemma RemovalListsLosers(s: System, c: Conn, input: Input, r: nat, v: Conn)
    requires Inv(s) && c in s.conns && s.conns[c].pc.Removing? && PointersOk(s) && Holds(s, r, v) && v != c
    requires !Holds(DisplayStep(s, c, input), r, v)
    ensures Awaits(DisplayStep(s, c, input).conns[c].pc, true, v)
  {
    assert RoomOk(s.store, r);
  }

  /** A connection that loses its slot is on the list of those to be closed. */
  lemma DisplacedAwaits(s: System, e: Event, t: System, r: nat, v: Conn)
    requires Inv(s) && Step(s, e, t) && Displaces(s, e, t, r, v)
    ensures e.c in t.conns && Awaits(t.conns[e.c].pc, s.conns[e.c].pc.Removing?, v)
  {
    hide DisplayStep;
    DisplacersChangeDisplays(s, e, t, r, v);
    if s.conns[e.c].pc.Registering? {
      RegistrationListsLosers(s, e.c, e.input, r, v);
    } else {
      RemovalListsLosers(s, e.c, e.input, r, v);
    }
    HandlersMoveForward(s, e, t, e.c);
  }

  lemma LoopCloses(s: System, c: Conn, input: Input, deferred: bool, v: Conn)
    requires PointersOk(s) && c in s.conns && v in s.conns && Awaits(s.conns[c].pc, deferred, v)
    ensures
      var t := DisplayStep(s, c, input);
      c in t.conns && v in t.conns && (Awaits(t.conns[c].pc, deferred, v) || !t.conns[v].isOpen)
  {
    hide PointersOk;
    var victims := s.conns[c].pc.victims;
    assert victims == [victims[0]] + victims[1..];
  }

  lemma VictimIsSpent(s: System, c: Conn, v: Conn)
    requires Inv(s) && c in s.conns && v in Victims(s.conns[c].pc)
    ensures Spent(s, v)
  {
    assert ConnOk(s, c);
  }

  lemma AwaitingStep(s: System, e: Event, t: System, c: Conn, deferred: bool, v: Conn)
    requires Inv(s) && Step(s, e, t) && c in s.conns && Awaits(s.conns[c].pc, deferred, v)
    ensures c in t.conns && v in t.conns && (Awaits(t.conns[c].pc, deferred, v) || !t.conns[v].isOpen)
  {
    hide DisplayStep, Inv;
    VictimIsSpent(s, c, v);
    HandlersMoveForward(s, e, t, c);
    HandlersMoveForward(s, e, t, v);
    if e.Run? && e.c == c {
      LoopCloses(s, c, e.input, deferred, v);
    }
  }

  lemma {:induction false} AwaitedIsClosed(
      states: seq<System>, events: seq<Event>, i: nat, j: nat, c: Conn, deferred: bool, v: Conn)
    requires IsRun(states, events) && i <= j < |states|
    requires c in states[i].conns && Awaits(states[i].conns[c].pc, deferred, v)
    ensures c in states[j].conns && v in states[j].conns
    ensures Awaits(states[j].conns[c].pc, deferred, v) || !states[j].conns[v].isOpen
    decreases j - i
  {
    hide Next, Inv, Awaits;
    if i == j {
      RunKeepsInv(states, events, i);
      AwaitedIsThere(states[i], c, deferred, v);
    } else {
      AwaitedIsClosed(states, events, i, j - 1, c, deferred, v);
      StepOfRun(states, events, j - 1);
      HandlersMoveForward(states[j - 1], events[j - 1], states[j], c);
      HandlersMoveForward(states[j - 1], events[j - 1], states[j], v);
      StepStaysClosed(states[j - 1], events[j - 1], states[j], v);
      if Awaits(states[j - 1].conns[c].pc, deferred, v) {
        AwaitingStep(states[j - 1], events[j - 1], states[j], c, deferred, v);
      }
    }
  }

  lemma AwaitedIsThere(s: System, c: Conn, deferred: bool, v: Conn)
    requires Inv(s) && c in s.conns && Awaits(s.conns[c].pc, deferred, v)
    ensures v in s.conns
  {
    VictimIsSpent(s, c, v);
  }

  /** The handler that made this display change has closed everybody it had to: after
      SetDisplay it has come to writing iceConfig or further, after RemoveDisplay to closing
      its own connection or further. */
  predicate HasMovedOn(change: PC, pc: PC) {
    if change.Registering? then !Early(pc) && !pc.Evicting? else pc.Closing? || pc.Done?
  }

  /** Whoever loses its slot to a step of another handler is closed by the time that handler
      has moved on, and is never open again. */
  lemma DisplacedAreClosed(states: seq<System>, events: seq<Event>, i: nat, j: nat, r: nat, v: Conn)
    requires IsRun(states, events) && i < j < |states|
    requires Displaces(states[i], events[i], states[i + 1], r, v)
    requires events[i].c in states[i].conns && events[i].c in states[j].conns
    requires HasMovedOn(states[i].conns[events[i].c].pc, states[j].conns[events[i].c].pc)
    ensures v in states[j].conns && !states[j].conns[v].isOpen
  {
    hide Next, Inv, Displaces;
    var c := events[i].c;
    var change := states[i].conns[c].pc;
    StepOfRun(states, events, i);
    DisplacersChangeDisplays(states[i], events[i], states[i + 1], r, v);
    DisplacedAwaits(states[i], events[i], states[i + 1], r, v);
    AwaitedIsClosed(states, events, i + 1, j, c, change.Removing?, v);
  }

  // ----- whoever is closed was displaced -----

  ghost predicate DisplacedBy(states: seq<System>, events: seq<Event>, k: nat, c: Conn, r: nat, v: Conn) {
    && k < |events| && |states| == |events| + 1
    && events[k].Run? && events[k].c == c
    && Displaces(states[k], events[k], states[k + 1], r, v)
  }

  lemma RegistrationListsOnlyLosers(s: System, c: Conn, input: Input, v: Conn) returns (r: nat)
    requires Inv(s) && PointersOk(s) && c in s.conns && s.conns[c].pc.Registering?
    requires v in Victims(DisplayStep(s, c, input).conns[c].pc)
    ensures Holds(s, r, v) && c != v && !Holds(DisplayStep(s, c, input), r, v)
  {
    r := Opened(s.store, s.conns[c].id).live[s.conns[c].id];
    SlotsByPc(s, c);
    if r < |s.store.rooms| {
      assert RoomOk(s.store, r) && SlotOk(s, r);
    }
  }

  lemma RemovalListsOnlyLosers(s: System, c: Conn, input: Input, v: Conn) returns (r: nat)
    requires Inv(s) && PointersOk(s) && c in s.conns && s.conns[c].pc.Removing?
    requires v in Victims(DisplayStep(s, c, input).conns[c].pc)
    ensures Holds(s, r, v) && c != v && !Holds(DisplayStep(s, c, input), r, v)
  {
    r := s.store.live[s.store.rooms[s.conns[c].pc.r].id];
    SlotsByPc(s, c);
    assert RoomOk(s.store, r) && SlotOk(s, r);
  }

  /** Only the two display changes put anybody on such a list. */
  lemma OthersListNobody(s: System, e: Event, t: System, c: Conn)
    requires Step(s, e, t) && c in t.conns
    requires c in s.conns ==> !s.conns[c].pc.Registering? && !s.conns[c].pc.Removing?
    ensures forall v :: v in Victims(t.conns[c].pc) ==> c in s.conns && v in Victims(s.conns[c].pc)
  {
    hide PointersOk, EntryStep, DisplayStep, PresenterStep;
    if c in s.conns {
      HandlersMoveForward(s, e, t, c);
    }
    if e.Run? && e.c == c {
      var pc := s.conns[c].pc;
      if EntryPc(pc) {
        EntryListsNobody(s, c, e.input);
      } else if DisplayPc(pc) {
        LoopsListNobody(s, c, e.input);
      } else {
        PresentersListNobody(s, c, e.input);
      }
    } else if e.Run? {
      HandlersMoveForward(s, e, t, e.c);
    }
  }

  lemma EntryListsNobody(s: System, c: Conn, input: Input)
    requires c in s.conns && EntryPc(s.conns[c].pc)
    ensures Victims(EntryStep(s, c, input).conns[c].pc) == []
  {
  }

  lemma LoopsListNobody(s: System, c: Conn, input: Input)
    requires PointersOk(s) && c in s.conns && DisplayPc(s.conns[c].pc)
    requires !s.conns[c].pc.Registering? && !s.conns[c].pc.Removing?
    ensures forall v :: v in Victims(DisplayStep(s, c, input).conns[c].pc) ==> v in Victims(s.conns[c].pc)
  {
    hide PointersOk;
  }

  lemma PresentersListNobody(s: System, c: Conn, input: Input)
    requires PointersOk(s) && c in s.conns && !EntryPc(s.conns[c].pc) && !DisplayPc(s.conns[c].pc)
    ensures Victims(PresenterStep(s, c, input).conns[c].pc) == []
  {
    hide PointersOk, PresenterStep;
    if AskingPc(s.conns[c].pc) || GreetingPc(s.conns[c].pc) {
      AskersListNobody(s, c, input);
    } else {
      SessionsListNobody(s, c, input);
    }
  }

  lemma AskersListNobody(s: System, c: Conn, input: Input)
    requires PointersOk(s) && c in s.conns && (AskingPc(s.conns[c].pc) || GreetingPc(s.conns[c].pc))
    ensures Victims(PresenterStep(s, c, input).conns[c].pc) == []
  {
    hide PointersOk, Authorize, Start;
  }

  lemma SessionsListNobody(s: System, c: Conn, input: Input)
    requires PointersOk(s) && c in s.conns && !EntryPc(s.conns[c].pc) && !DisplayPc(s.conns[c].pc)
    requires !AskingPc(s.conns[c].pc) && !GreetingPc(s.conns[c].pc)
    ensures Victims(PresenterStep(s, c, input).conns[c].pc) == []
  {
    hide PointersOk, Release;
  }

  lemma {:induction false} AwaitedWereDisplaced(
      states: seq<System>, events: seq<Event>, n: nat, c: Conn, v: Conn) returns (k: nat, r: nat)
    requires IsRun(states, events) && n < |states| && c in states[n].conns && v in Victims(states[n].conns[c].pc)
    ensures k < n && DisplacedBy(states, events, k, c, r, v)
  {
    hide Next, Inv, Displaces;
    if n == 0 {
      assert false;
    } else {
      var s, e, t := states[n - 1], events[n - 1], states[n];
      StepOfRun(states, events, n - 1);
      if c in s.conns && v in Victims(s.conns[c].pc) {
        k, r := AwaitedWereDisplaced(states, events, n - 1, c, v);
      } else {
        k := n - 1;
        r := NewlyListed(s, e, t, c, v);
      }
    }
  }

  lemma NewlyListed(s: System, e: Event, t: System, c: Conn, v: Conn) returns (r: nat)
    requires Inv(s) && Step(s, e, t) && c in t.conns && v in Victims(t.conns[c].pc)
    requires c in s.conns ==> v !in Victims(s.conns[c].pc)
    ensures e.Run? && e.c == c && Displaces(s, e, t, r, v)
  {
    hide DisplayStep, Inv;
    if c in s.conns && (s.conns[c].pc.Registering? || s.conns[c].pc.Removing?) {
      HandlersMoveForward(s, e, t, c);
      if s.conns[c].pc.Registering? {
        r := RegistrationListsOnlyLosers(s, c, e.input, v);
      } else {
        r := RemovalListsOnlyLosers(s, c, e.input, v);
      }
    } else {
      OthersListNobody(s, e, t, c);
      assert false;
    }
  }

  /** Connection d is as open as it was. */
  ghost predicate StaysAsOpen(s: System, t: System, d: Conn) {
    d in s.conns ==> d in t.conns && t.conns[d].isOpen == s.conns[d].isOpen
  }

  lemma AskingClosesNobody(s: System, c: Conn, input: Input, d: Conn)
    requires PointersOk(s) && c in s.conns && (AskingPc(s.conns[c].pc) || GreetingPc(s.conns[c].pc))
    ensures StaysAsOpen(s, PresenterStep(s, c, input), d)
  {
    hide PointersOk, Authorize, Start, Release;
  }

  lemma SessionClosesNobody(s: System, c: Conn, input: Input, d: Conn)
    requires PointersOk(s) && c in s.conns && !AskingPc(s.conns[c].pc) && !GreetingPc(s.conns[c].pc)
    ensures StaysAsOpen(s, PresenterStep(s, c, input), d)
  {
    hide PointersOk, Authorize, Start, Release;
  }

  /** Handler c's own step closes v: its own connection at the end, or the next one that it
      has to close after a display change. */
  predicate Closes(pc: PC, c: Conn, v: Conn) {
    (pc.Closing? && v == c) || (Victims(pc) != [] && v == Victims(pc)[0])
  }

  lemma EntryCloses(s: System, c: Conn, input: Input, v: Conn)
    requires c in s.conns && EntryPc(s.conns[c].pc) && v in s.conns && s.conns[v].isOpen
    ensures var t := EntryStep(s, c, input); v in t.conns && (t.conns[v].isOpen <==> !Closes(s.conns[c].pc, c, v))
  {
  }

  lemma DisplayCloses(s: System, c: Conn, input: Input, v: Conn)
    requires PointersOk(s) && c in s.conns && v in s.conns && s.conns[v].isOpen && DisplayPc(s.conns[c].pc)
    ensures var t := DisplayStep(s, c, input); v in t.conns && (t.conns[v].isOpen <==> !Closes(s.conns[c].pc, c, v))
  {
    hide PointersOk, SetDisplay, RemoveDisplay;
  }

  /** A step closes an open connection exactly if it loses it, ends its own handler, or is
      the step of one of the loops that has come to it. */
  lemma WhatClosesConnections(s: System, e: Event, t: System, v: Conn)
    requires Step(s, e, t) && v in s.conns && s.conns[v].isOpen
    ensures v in t.conns
    ensures !t.conns[v].isOpen <==> e == Break(v) || (e.Run? && Closes(s.conns[e.c].pc, e.c, v))
  {
    hide PointersOk, EntryStep, DisplayStep, PresenterStep;
    if e.Run? {
      var pc := s.conns[e.c].pc;
      if EntryPc(pc) {
        EntryCloses(s, e.c, e.input, v);
      } else if DisplayPc(pc) {
        DisplayCloses(s, e.c, e.input, v);
      } else if AskingPc(pc) || GreetingPc(pc) {
        AskingClosesNobody(s, e.c, e.input, v);
      } else {
        SessionClosesNobody(s, e.c, e.input, v);
      }
    }
  }

  /** Whoever is closed by another handler lost its slot to an earlier step of that handler,
      holds no slot now, and never will again. */
  lemma EvictionIsSafe(states: seq<System>, events: seq<Event>, i: nat, v: Conn)
    requires IsRun(states, events) && i < |events| && events[i].Run? && events[i].c != v
    requires v in states[i].conns && v in states[i + 1].conns
    requires states[i].conns[v].isOpen && !states[i + 1].conns[v].isOpen
    ensures exists k: nat, r: nat :: k < i && DisplacedBy(states, events, k, events[i].c, r, v)
    ensures forall j, r :: i <= j < |states| ==> !Holds(states[j], r, v)
  {
    hide Next, Inv, Displaces;
    var c := events[i].c;
    StepOfRun(states, events, i);
    WhatClosesConnections(states[i], events[i], states[i + 1], v);
    var k, r := AwaitedWereDisplaced(states, events, i, c, v);
    VictimIsSpent(states[i], c, v);
    forall j, r: nat | i <= j < |states| ensures !Holds(states[j], r, v) {
      SpentForever(states, events, i, j, v);
    }
  }
}
