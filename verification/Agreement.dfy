/** The display and the server agree on the code, across every interleaving. */
module Agreement {
  import opened Wrappers
  import opened Rooms
  import opened Signalling
  import opened SlotInvariant
  import opened RoomActions
  import opened SignallingTheorems
  import opened Reservations
  import opened Screens

  // ----- what a step is trusted to do -----

  function IssuedCodes(issued: seq<Issue>): set<string> {
    set k | 0 <= k < |issued| :: issued[k].code
  }

  /** A code drawn in this step was never drawn before. */
  ghost predicate DrawsFresh(s: System, e: Event)
    requires PointersOk(s) && Enabled(s, e)
  {
    IssueOf(s, e).Some? ==> IssueOf(s, e).value.code !in IssuedCodes(s.issued)
  }

  /** The handler of d is about to give the room up and has sent it no code: it has failed
      before displayReady. */
  ghost predicate LeavesUnserved(s: System, d: Conn)
    requires d in s.conns
  {
    s.conns[d].pc.Removing? && View(s, d) == Blank
  }

  /** A code that is accepted has been written to the room's current display, unless that
      display is leaving without ever having been sent one. */
  ghost predicate AsksOnlyShown(s: System, e: Event)
    requires PointersOk(s) && Enabled(s, e)
  {
    var a := ActionOf(s, e);
    a.Asks? && Authorizes(s.store.rooms[a.r], a.code) ==>
      var d := s.store.rooms[a.r].display.value;
      Reaches(s, d) ==> a.code in Shown(s, d) || LeavesUnserved(s, d)
  }

  ghost predicate Trusted(s: System, e: Event)
    requires PointersOk(s) && Enabled(s, e)
  {
    DrawsFresh(s, e) && AsksOnlyShown(s, e)
  }

  // ----- the invariant -----

  /** The display has been attached and not yet been sent its first code. */
  predicate PreReady(pc: PC) {
    pc.Evicting? || pc.SendIce? || pc.ReadCode? || pc.SendReady?
  }

  /** The display has been sent its first code and is being served. */
  predicate Ready(pc: PC) {
    pc.Serving? || pc.RelayUp?
  }

  /** The display that a handler owes the presenterClosed message. */
  function Owed(pc: PC): Option<Conn> {
    if pc.Notify? then Some(pc.display) else None
  }

  ghost predicate NobodyOwes(s: System, d: Conn) {
    forall c :: c in s.conns ==> Owed(s.conns[c].pc) != Some(d)
  }

  /** What one connection contributes: its log holds issued codes only, an early
      handler's log shows nothing, and what it is about to send is in order. */
  ghost predicate TextOk(s: System, c: Conn)
    requires c in s.conns
  {
    var pc := s.conns[c].pc;
    && Shown(s, c) <= IssuedCodes(s.issued)
    && (Early(pc) ==> View(s, c) == Blank)
    && (pc.SendReady? ==> pc.code in IssuedCodes(s.issued))
    && (pc.Notify? ==> pc.code in IssuedCodes(s.issued) && pc.display in s.conns && !Early(s.conns[pc.display].pc))
    && RelaysPlain(pc)
  }

  /** The code field of an open display, as far as the logs determine it. */
  ghost predicate ScreenOk(s: System, r: nat, d: Conn)
    requires r < |s.store.rooms| && d in s.conns
  {
    var room := s.store.rooms[r];
    var pc := s.conns[d].pc;
    && (PreReady(pc) ==> View(s, d) == Blank)
    && (Ready(pc) ==> View(s, d) != Blank)
    && (pc.SendReady? ==> pc.code == room.code)
    && (View(s, d) == Blank ==> (room.presenter.None? || pc.Removing?) && NobodyOwes(s, d))
    && (View(s, d) != Blank && room.presenter.None? ==> FreeScreenOk(s, r, d))
    && (room.presenter.Some? ==> TakenScreenOk(s, r, d, room.presenter.value))
  }

  /** Slot free: either the code is on its way from the one handler that owes it,
      or it is what the display will show. */
  ghost predicate FreeScreenOk(s: System, r: nat, d: Conn)
    requires r < |s.store.rooms| && d in s.conns
  {
    var code := s.store.rooms[r].code;
    && (forall c :: c in s.conns && Owed(s.conns[c].pc) == Some(d) ==>
          s.conns[c].pc.code == code && code !in Shown(s, d))
    && (forall c, q :: c in s.conns && q in s.conns && Owed(s.conns[c].pc) == Owed(s.conns[q].pc) == Some(d) ==> c == q)
    && (NobodyOwes(s, d) ==> View(s, d) == Code(code))
  }

  /** Slot taken by p: the new code is hidden, and once p's handler has written
      refreshCode the display shows that it is connecting. */
  ghost predicate TakenScreenOk(s: System, r: nat, d: Conn, p: Conn)
    requires r < |s.store.rooms| && d in s.conns
  {
    && NobodyOwes(s, d)
    && s.store.rooms[r].code !in Shown(s, d)
    && (p in s.conns && !s.conns[p].pc.Granted? ==> View(s, d) == Connecting)
  }

  ghost predicate RoomScreenOk(s: System, r: nat)
    requires r < |s.store.rooms|
  {
    s.store.rooms[r].display.Some? ==>
      var d := s.store.rooms[r].display.value;
      Reaches(s, d) ==> ScreenOk(s, r, d)
  }

  ghost predicate Agrees(s: System) {
    && (forall c :: c in s.conns ==> TextOk(s, c))
    && (forall r :: 0 <= r < |s.store.rooms| ==> RoomScreenOk(s, r))
  }

  // ----- each connection's part -----

  lemma IssuedGrows(issued: seq<Issue>, x: Issue)
    ensures IssuedCodes(issued + [x]) == IssuedCodes(issued) + {x.code}
  {
    var all := issued + [x];
    assert forall k :: 0 <= k < |issued| ==> all[k] == issued[k];
    assert all[|issued|] == x;
  }

  lemma IssuedKept(s: System, e: Event, t: System)
    requires Step(s, e, t)
    ensures IssuedCodes(s.issued) <= IssuedCodes(t.issued)
  {
    StepIssues(s, e, t);
    if IssueOf(s, e).Some? {
      IssuedGrows(s.issued, IssueOf(s, e).value);
    }
  }

  lemma RoomCodeIsIssued(s: System, r: nat)
    requires CodesAreLatest(s) && r < |s.store.rooms|
    ensures s.store.rooms[r].code in IssuedCodes(s.issued)
  {
    assert CodeIsLatest(s, r);
  }

  /** The step's text write goes to a connection past registration, with an issued code. */
  lemma TextWriteIsLate(s: System, e: Event)
    requires Inv(s) && PointersOk(s) && Enabled(s, e)
    requires e.Run? ==> TextOk(s, e.c)
    requires TextWrite(s, e).Some? && TextWrite(s, e).value.0 in s.conns
    ensures !Early(s.conns[TextWrite(s, e).value.0].pc)
    ensures Shows(TextWrite(s, e).value.1).Some? && Shows(TextWrite(s, e).value.1).value != Blank
    ensures
      var shown := Shows(TextWrite(s, e).value.1).value;
      shown.Code? ==> shown.code in IssuedCodes(s.issued)
  {
    assert ConnOk(s, e.c);
    var pc := s.conns[e.c].pc;
    OneKindOfSlot(pc);
    if Kept(pc).Some? {
      assert SlotOk(s, PresenterSlot(pc).value);
      var room := s.store.rooms[PresenterSlot(pc).value];
      if room.presenter == Some(e.c) {
        OneKindOfSlot(s.conns[room.display.value].pc);
      }
    }
  }

  ghost predicate PendingOk(s: System, pc: PC) {
    && (pc.SendReady? ==> pc.code in IssuedCodes(s.issued))
    && (pc.Notify? ==> pc.code in IssuedCodes(s.issued) && pc.display in s.conns && !Early(s.conns[pc.display].pc))
    && RelaysPlain(pc)
  }

  lemma PendingEntryText(s: System, e: Event, t: System)
    requires Step(s, e, t) && e.Run? && EntryPc(s.conns[e.c].pc)
    ensures
      var b := t.conns[e.c].pc;
      && !b.SendReady? && !b.Notify? && !b.Granted? && !PreReady(b) && !Ready(b)
      && !b.RelayUp? && !b.RelayDown?
  {
  }

  /** The display that a releasing presenter leaves behind is past registration. */
  lemma ReleasedRoomText(s: System, r: nat)
    requires Inv(s) && CodesAreLatest(s) && r < |s.store.rooms|
    ensures s.store.rooms[r].code in IssuedCodes(s.issued)
    ensures
      var display := s.store.rooms[r].display;
      display.Some? ==> display.value in s.conns && !Early(s.conns[display.value].pc)
  {
    RoomCodeIsIssued(s, r);
    assert SlotOk(s, r);
    if s.store.rooms[r].display.Some? {
      OneKindOfSlot(s.conns[s.store.rooms[r].display.value].pc);
    }
  }

  /** Where a handler's own pending text comes from. */
  lemma PendingText(s: System, e: Event, t: System)
    requires Inv(s) && CodesAreLatest(s) && Step(s, e, t) && e.Run? && TextOk(s, e.c)
    ensures e.c in t.conns && PendingOk(s, t.conns[e.c].pc)
  {
    var a := s.conns[e.c].pc;
    HandlersMoveForward(s, e, t, e.c);
    if EntryPc(a) {
      PendingEntryText(s, e, t);
    } else {
      if PcRoom(a).Some? {
        ReleasedRoomText(s, PcRoom(a).value);
      }
      if DisplayPc(a) {
        PendingDisplayText(s, e, t);
      } else {
        PendingPresenterText(s, e, t);
      }
    }
  }

  lemma PendingDisplayText(s: System, e: Event, t: System)
    requires Step(s, e, t) && e.Run? && DisplayPc(s.conns[e.c].pc)
    ensures
      var a, b := s.conns[e.c].pc, t.conns[e.c].pc;
      && (b.SendReady? ==> a.ReadCode? && b.code == s.store.rooms[a.r].code && b.r == a.r)
      && (PreReady(b) ==> PreReady(a) || a.Registering?)
      && (Ready(b) ==> Ready(a) || a.SendReady?)
      && !b.Notify? && !b.Granted? && RelaysPlain(b)
  {
    hide EntryStep, PresenterStep, PointersOk;
  }

  lemma PendingPresenterText(s: System, e: Event, t: System)
    requires Step(s, e, t) && e.Run? && !EntryPc(s.conns[e.c].pc) && !DisplayPc(s.conns[e.c].pc)
    requires RelaysPlain(s.conns[e.c].pc)
    ensures
      var a, b := s.conns[e.c].pc, t.conns[e.c].pc;
      && (b.Notify? ==>
            && a.Releasing? && s.store.rooms[a.r].presenter == Some(e.c)
            && s.store.rooms[a.r].display == Some(b.display) && b.code == s.store.rooms[a.r].code)
      && (b.Granted? ==> a.Authorizing? && Authorizes(s.store.rooms[a.r], a.code))
      && !b.SendReady? && !PreReady(b) && !Ready(b) && RelaysPlain(b)
  {
    hide EntryStep, DisplayStep, PointersOk;
    var a := s.conns[e.c].pc;
    if a.Releasing? || a.Notify? {
    } else if AskingPc(a) {
    } else if GreetingPc(a) {
      NoTextFromGreeting(s, e, t);
    } else {
      NoTextFromSession(s, e, t);
    }
  }

  lemma NoTextFromGreeting(s: System, e: Event, t: System)
    requires Step(s, e, t) && e.Run? && GreetingPc(s.conns[e.c].pc)
    ensures
      var b := t.conns[e.c].pc;
      !b.Notify? && !b.Granted? && !b.SendReady? && !PreReady(b) && !Ready(b) && RelaysPlain(b)
  {
    hide EntryStep, DisplayStep, PointersOk, Start;
  }

  lemma NoTextFromSession(s: System, e: Event, t: System)
    requires Step(s, e, t) && e.Run? && SessionPc(s.conns[e.c].pc)
    requires RelaysPlain(s.conns[e.c].pc)
    ensures
      var b := t.conns[e.c].pc;
      !b.Notify? && !b.Granted? && !b.SendReady? && !PreReady(b) && !Ready(b) && RelaysPlain(b)
  {
    hide EntryStep, DisplayStep, PointersOk;
  }

  lemma TextStaysOk(s: System, e: Event, t: System, c: Conn)
    requires Inv(s) && CodesAreLatest(s) && Agrees(s) && Step(s, e, t) && c in s.conns
    ensures c in t.conns && TextOk(t, c)
  {
    hide Next;
    assert TextOk(s, c);
    if e.Run? {
      assert TextOk(s, e.c);
      PendingText(s, e, t);
    }
    HandlersMoveForward(s, e, t, c);
    StepLogs(s, e, t, c);
    IssuedKept(s, e, t);
    var w := TextWrite(s, e);
    if w.Some? && w.value.0 == c && s.conns[c].isOpen {
      TextWriteIsLate(s, e);
      LogStep(s.conns[c].sent, w.value.1);
    } else {
      PlainTailShowsTheSame(s.conns[c].sent, t.conns[c].sent);
    }
    if t.conns[c].pc.Notify? {
      HandlersMoveForward(s, e, t, t.conns[c].pc.display);
    }
  }

  // ----- each display's screen -----

  /** Nothing that bears on d's screen in room r has changed. */
  ghost predicate SameFor(s: System, t: System, r: nat, d: Conn)
    requires r < |s.store.rooms| && r < |t.store.rooms|
  {
    && s.conns.Keys <= t.conns.Keys && d in s.conns
    && t.store.rooms[r].code == s.store.rooms[r].code
    && t.store.rooms[r].presenter == s.store.rooms[r].presenter
    && View(t, d) == View(s, d) && Shown(t, d) == Shown(s, d)
    && (PreReady(t.conns[d].pc) ==> PreReady(s.conns[d].pc))
    && (Ready(t.conns[d].pc) ==> Ready(s.conns[d].pc))
    && (t.conns[d].pc.SendReady? ==> t.conns[d].pc == s.conns[d].pc)
    && (s.conns[d].pc.Removing? ==> t.conns[d].pc.Removing?)
    && (forall c :: c in t.conns && Owed(t.conns[c].pc) == Some(d) ==>
          c in s.conns && s.conns[c].pc == t.conns[c].pc)
    && (forall c :: c in s.conns && Owed(s.conns[c].pc) == Some(d) ==> t.conns[c].pc == s.conns[c].pc)
    && (s.store.rooms[r].presenter.Some? ==>
          var p := s.store.rooms[r].presenter.value;
          p in s.conns && (s.conns[p].pc.Granted? ==> t.conns[p].pc.Granted?))
  }

  lemma SameScreen(s: System, t: System, r: nat, d: Conn)
    requires r < |s.store.rooms| && r < |t.store.rooms| && SameFor(s, t, r, d) && ScreenOk(s, r, d)
    ensures ScreenOk(t, r, d)
  {
    assert NobodyOwes(s, d) <==> NobodyOwes(t, d);
  }

  /** The steps that bear on d's screen in room r. */
  ghost predicate Bears(s: System, e: Event, r: nat, d: Conn)
    requires PointersOk(s) && Enabled(s, e)
  {
    e.Run? &&
    var pc := s.conns[e.c].pc;
    || (e.c == d && (pc.Registering? || pc.ReadCode? || pc.SendReady?))
    || (pc.Authorizing? && pc.r == r && Authorizes(s.store.rooms[pc.r], pc.code))
    || ((pc.Granted? || pc.Announce? || pc.Notify?) && pc.display == d)
    || (pc.Releasing? && pc.r == r && s.store.rooms[pc.r].presenter == Some(e.c))
  }

  /** A room whose display stays changes its code or presenter only by a step that bears on it. */
  lemma RoomStays(s: System, e: Event, t: System, r: nat, d: Conn)
    requires Inv(s) && Step(s, e, t) && r < |t.store.rooms| && t.store.rooms[r].display == Some(d)
    requires !Bears(s, e, r, d)
    ensures r < |s.store.rooms| && s.store.rooms[r].display == Some(d)
    ensures t.store.rooms[r].code == s.store.rooms[r].code && t.store.rooms[r].presenter == s.store.rooms[r].presenter
  {
    hide Next;
    StepPerforms(s, e, t);
    var a := ActionOf(s, e);
    if a.Drops? {
      RemovesIffHeld(s, a.c);
    }
  }

  /** A connection, a loss or a delivery changes nobody's screen. */
  lemma QuietEventsSame(s: System, e: Event, t: System, r: nat, d: Conn)
    requires Inv(s) && Step(s, e, t) && !e.Run?
    requires r < |s.store.rooms| && r < |t.store.rooms| && s.store.rooms[r].display == Some(d)
    ensures SameFor(s, t, r, d)
  {
    hide View, Shown, PreAuthOk;
    assert SlotOk(s, r);
    StepLogs(s, e, t, d);
    PlainTailKeeps(s, t, d);
  }

  lemma PlainTailKeeps(s: System, t: System, d: Conn)
    requires d in s.conns && d in t.conns && PlainTail(s.conns[d].sent, t.conns[d].sent)
    ensures View(t, d) == View(s, d) && Shown(t, d) == Shown(s, d)
  {
    PlainTailShowsTheSame(s.conns[d].sent, t.conns[d].sent);
  }

  lemma OtherStepsSame(s: System, e: Event, t: System, r: nat, d: Conn)
    requires Inv(s) && Agrees(s) && Step(s, e, t)
    requires r < |t.store.rooms| && t.store.rooms[r].display == Some(d) && !Bears(s, e, r, d)
    ensures r < |s.store.rooms| && SameFor(s, t, r, d)
  {
    hide Next, SameFor, Inv;
    RoomStays(s, e, t, r, d);
    if e.Run? {
      assert TextOk(s, e.c);
      OtherRunsSame(s, e, t, r, d);
    } else {
      QuietEventsSame(s, e, t, r, d);
    }
  }

  lemma ActorText(s: System, e: Event, t: System)
    requires Step(s, e, t) && e.Run? && RelaysPlain(s.conns[e.c].pc)
    ensures e.c in t.conns
    ensures
      var a, b := s.conns[e.c].pc, t.conns[e.c].pc;
      && (b.SendReady? ==> a.ReadCode? && b.code == s.store.rooms[a.r].code && b.r == a.r)
      && (PreReady(b) ==> PreReady(a) || a.Registering?)
      && (Ready(b) ==> Ready(a) || a.SendReady?)
      && (b.Notify? ==>
            && a.Releasing? && s.store.rooms[a.r].presenter == Some(e.c)
            && s.store.rooms[a.r].display == Some(b.display) && b.code == s.store.rooms[a.r].code)
      && (b.Granted? ==> a.Authorizing? && Authorizes(s.store.rooms[a.r], a.code))
  {
    hide Next, RelaysPlain;
    HandlersMoveForward(s, e, t, e.c);
    if EntryPc(s.conns[e.c].pc) {
      PendingEntryText(s, e, t);
    } else if DisplayPc(s.conns[e.c].pc) {
      PendingDisplayText(s, e, t);
    } else {
      PendingPresenterText(s, e, t);
    }
  }

  lemma OtherRunsSame(s: System, e: Event, t: System, r: nat, d: Conn)
    requires Inv(s) && Step(s, e, t) && e.Run? && TextOk(s, e.c)
    requires r < |s.store.rooms| && s.store.rooms[r].display == Some(d) && !Bears(s, e, r, d)
    requires r < |t.store.rooms| && t.store.rooms[r].code == s.store.rooms[r].code
    requires t.store.rooms[r].presenter == s.store.rooms[r].presenter && t.store.rooms[r].display == Some(d)
    ensures SameFor(s, t, r, d)
  {
    hide Next, View, Shown, RelaysPlain;
    assert SlotOk(s, r);
    OtherRunsKeepView(s, e, t, r, d);
    RemovalEndsDisplay(s, e, t, r, d);
    OtherRunsKeepDebts(s, e, t, r, d);
    ActorText(s, e, t);
    HandlersMoveForward(s, e, t, d);
    if s.store.rooms[r].presenter.Some? {
      var p := s.store.rooms[r].presenter.value;
      HandlersMoveForward(s, e, t, p);
      PresenterKnowsDisplay(s, p, r, d);
    }
  }

  /** A display whose handler performs RemoveDisplay is its room's display no longer. */
  lemma RemovalEndsDisplay(s: System, e: Event, t: System, r: nat, d: Conn)
    requires Inv(s) && Step(s, e, t) && e.Run? && r < |s.store.rooms| && r < |t.store.rooms|
    requires s.store.rooms[r].display == Some(d) && t.store.rooms[r].display == Some(d)
    ensures !(e.c == d && s.conns[d].pc.Removing?)
  {
    if e.c == d && s.conns[d].pc.Removing? {
      hide Next;
      SlotsByPc(s, d);
      CleanupOfHolder(s, e, t, d, r);
    }
  }

  lemma OtherRunsKeepView(s: System, e: Event, t: System, r: nat, d: Conn)
    requires Inv(s) && Step(s, e, t) && e.Run? && TextOk(s, e.c)
    requires r < |s.store.rooms| && s.store.rooms[r].display == Some(d) && !Bears(s, e, r, d)
    ensures d in s.conns && d in t.conns && View(t, d) == View(s, d) && Shown(t, d) == Shown(s, d)
  {
    hide Next;
    assert SlotOk(s, r);
    OneKindOfSlot(s.conns[d].pc);
    StepLogs(s, e, t, d);
    PlainTailShowsTheSame(s.conns[d].sent, t.conns[d].sent);
  }

  lemma OtherRunsKeepDebts(s: System, e: Event, t: System, r: nat, d: Conn)
    requires Inv(s) && Step(s, e, t) && e.Run? && TextOk(s, e.c)
    requires r < |s.store.rooms| && s.store.rooms[r].display == Some(d) && !Bears(s, e, r, d)
    ensures t.conns.Keys == s.conns.Keys
    ensures forall c :: c in s.conns && (Owed(t.conns[c].pc) == Some(d) || Owed(s.conns[c].pc) == Some(d)) ==>
      t.conns[c].pc == s.conns[c].pc
  {
    hide Next;
    ActorText(s, e, t);
    HandlersMoveForward(s, e, t, e.c);
    assert SlotOk(s, r);
    if s.conns[e.c].pc.Releasing? {
      assert SlotOk(s, s.conns[e.c].pc.r);
    }
    forall c | c in s.conns && (Owed(t.conns[c].pc) == Some(d) || Owed(s.conns[c].pc) == Some(d))
      ensures t.conns[c].pc == s.conns[c].pc
    {
      HandlersMoveForward(s, e, t, c);
    }
  }

  /** The presenter of a room kept the room's present display. */
  lemma PresenterKnowsDisplay(s: System, c: Conn, r: nat, d: Conn)
    requires Inv(s) && c in s.conns && r < |s.store.rooms| && s.store.rooms[r].display == Some(d)
    ensures s.store.rooms[r].presenter == Some(c) && Kept(s.conns[c].pc).Some? ==>
      PresenterSlot(s.conns[c].pc) == Some(r) && Kept(s.conns[c].pc) == Some(d)
    ensures Kept(s.conns[c].pc) == Some(d) ==>
      PresenterSlot(s.conns[c].pc) == Some(r) && s.store.rooms[r].presenter == Some(c)
  {
    assert ConnOk(s, c) && SlotOk(s, r);
    OneKindOfSlot(s.conns[c].pc);
    if Kept(s.conns[c].pc) == Some(d) {
      assert SlotOk(s, PresenterSlot(s.conns[c].pc).value);
    }
  }

  // ----- the steps that bear on a screen -----

  lemma AttachesOnly(s: System, e: Event, t: System, d: Conn)
    requires Step(s, e, t) && e.Run? && e.c == d && s.conns[d].pc.Registering?
    ensures d in t.conns && t.conns == s.conns[d := s.conns[d].(pc := t.conns[d].pc)]
  {
    hide EntryStep, PresenterStep, SetDisplay, PointersOk;
  }

  lemma AttachedScreen(s: System, e: Event, t: System, r: nat, d: Conn)
    requires Inv(s) && Agrees(s) && Step(s, e, t) && e.Run? && e.c == d && s.conns[d].pc.Registering?
    requires r < |t.store.rooms| && t.store.rooms[r].display == Some(d)
    ensures ScreenOk(t, r, d)
  {
    assert TextOk(s, d);
    StepPerforms(s, e, t);
    AttachesOnly(s, e, t, d);
    forall c | c in t.conns ensures Owed(t.conns[c].pc) != Some(d) {
      assert TextOk(s, c);
    }
    SlotsByPc(s, d);
  }

  /** A code that authorizes and was written to the display is the one it shows. */
  lemma ShownCodeIsOnScreen(s: System, r: nat, d: Conn)
    requires Inv(s) && Agrees(s) && r < |s.store.rooms| && s.store.rooms[r].display == Some(d) && Reaches(s, d)
    requires s.store.rooms[r].presenter.None? && s.store.rooms[r].code in Shown(s, d)
    ensures ScreenOk(s, r, d) && NobodyOwes(s, d) && View(s, d) != Blank && Shown(s, d) <= IssuedCodes(s.issued)
  {
    assert RoomScreenOk(s, r) && TextOk(s, d) && SlotOk(s, r);
    ScreenIsShown(s.conns[d].sent);
  }

  /** A display that leaves unserved has shown nothing and is owed nothing. */
  lemma UnservedShowsNothing(s: System, r: nat, d: Conn)
    requires Inv(s) && Agrees(s) && r < |s.store.rooms| && s.store.rooms[r].display == Some(d) && Reaches(s, d)
    requires LeavesUnserved(s, d)
    ensures ScreenOk(s, r, d) && NobodyOwes(s, d) && Shown(s, d) == {}
  {
    assert RoomScreenOk(s, r);
    BlankShowsNothing(s.conns[d].sent);
  }

  /** A granted slot with a new, unseen code. */
  lemma GrantedScreenOf(s: System, t: System, c: Conn, r: nat, d: Conn)
    requires r < |s.store.rooms| == |t.store.rooms| && d in s.conns && c in s.conns
    requires ScreenOk(s, r, d) && NobodyOwes(s, d) && (View(s, d) != Blank || s.conns[d].pc.Removing?)
    requires t.store.rooms[r].code !in Shown(s, d) && t.store.rooms[r].presenter == Some(c)
    requires t.conns.Keys == s.conns.Keys && t.conns[c].pc.Granted? && s.conns[c].pc.Authorizing?
    requires forall q :: q in s.conns && q != c ==> t.conns[q] == s.conns[q]
    requires t.conns[d].sent == s.conns[d].sent
    ensures ScreenOk(t, r, d)
  {
  }

  lemma GrantedScreen(s: System, e: Event, t: System, c: Conn, r: nat, d: Conn)
    requires Inv(s) && Agrees(s) && Step(s, e, t) && Trusted(s, e)
    requires Grants(s, e, c, r) && s.store.rooms[r].display == Some(d) && Reaches(s, d)
    ensures ScreenOk(t, r, d)
  {
    hide Next, ScreenOk, Agrees, Inv;
    GrantSets(s, e, t, c, r);
    var a := ActionOf(s, e);
    assert a.r == r && s.store.rooms[r].code == a.code;
    if LeavesUnserved(s, d) {
      UnservedShowsNothing(s, r, d);
    } else {
      ShownCodeIsOnScreen(s, r, d);
      assert IssueOf(s, e) == Some(Issue(r, e.input.text));
    }
    GrantedScreenOf(s, t, c, r, d);
  }

  ghost predicate OnlyMoves(s: System, t: System, c: Conn) {
    && c in s.conns && t.conns.Keys == s.conns.Keys
    && (forall q :: q in s.conns && q != c ==> t.conns[q].pc == s.conns[q].pc)
  }

  /** A handler that writes its text and moves on leaves the rooms and all other
      handlers alone. */
  lemma WriterMovesAlone(s: System, e: Event, t: System)
    requires Step(s, e, t) && e.Run?
    requires s.conns[e.c].pc.Granted? || s.conns[e.c].pc.Announce? || s.conns[e.c].pc.Notify?
    ensures t.store == s.store && OnlyMoves(s, t, e.c)
    ensures Owed(t.conns[e.c].pc).None? && !t.conns[e.c].pc.Granted?
    ensures !PreReady(t.conns[e.c].pc)
  {
    hide EntryStep, DisplayStep, PresenterStep;
    NoActionKeepsStore(s, e, t);
    WriterMovesOn(s, e.c, e.input);
    if s.conns[e.c].pc.Notify? {
      LeavingMovesForward(s, e.c, e.input);
    } else if s.conns[e.c].pc.Granted? {
      GreetingMovesForward(s, e.c, e.input);
    } else {
      SessionMovesForward(s, e.c, e.input);
    }
  }

  lemma WriterMovesOn(s: System, c: Conn, input: Input)
    requires PointersOk(s) && c in s.conns
    requires s.conns[c].pc.Granted? || s.conns[c].pc.Announce? || s.conns[c].pc.Notify?
    ensures
      var b := PresenterStep(s, c, input).conns[c].pc;
      Owed(b).None? && !b.Granted? && !PreReady(b)
  {
    hide PointersOk;
  }

  lemma WriterReaches(s: System, e: Event, t: System, d: Conn)
    requires Step(s, e, t) && e.Run? && Reaches(s, d)
    requires s.conns[e.c].pc.Granted? || s.conns[e.c].pc.Announce? || s.conns[e.c].pc.Notify?
    requires s.conns[e.c].pc.display == d
    ensures d in t.conns
    ensures s.conns[e.c].pc.Notify? ==> View(t, d) == Code(s.conns[e.c].pc.code)
    ensures !s.conns[e.c].pc.Notify? ==> View(t, d) == Connecting && Shown(t, d) == Shown(s, d)
  {
    hide Next, ScreenOf, CodesShown;
    StepLogs(s, e, t, d);
    LogStep(s.conns[d].sent, TextWrite(s, e).value.1);
  }

  lemma TakenIsReady(s: System, r: nat, d: Conn)
    requires r < |s.store.rooms| && d in s.conns && ScreenOk(s, r, d) && s.store.rooms[r].presenter.Some?
    ensures !PreReady(s.conns[d].pc)
  {
  }

  lemma RefreshedScreen(s: System, e: Event, t: System, r: nat, d: Conn)
    requires Inv(s) && Agrees(s) && Step(s, e, t) && e.Run?
    requires (s.conns[e.c].pc.Granted? || s.conns[e.c].pc.Announce?) && s.conns[e.c].pc.display == d
    requires r < |s.store.rooms| && s.store.rooms[r].display == Some(d) && Reaches(s, d)
    requires r < |t.store.rooms| && d in t.conns
    ensures t.store.rooms[r] == s.store.rooms[r] && ScreenOk(t, r, d)
  {
    hide Next, ScreenOk;
    PresenterKnowsDisplay(s, e.c, r, d);
    assert RoomScreenOk(s, r) && SlotOk(s, r);
    OneKindOfSlot(s.conns[d].pc);
    TakenIsReady(s, r, d);
    WriterMovesAlone(s, e, t);
    WriterReaches(s, e, t, d);
    ConnectingScreen(s, t, e.c, r, d);
  }

  lemma ConnectingScreen(s: System, t: System, c: Conn, r: nat, d: Conn)
    requires t.store == s.store && OnlyMoves(s, t, c) && Owed(t.conns[c].pc).None? && c != d
    requires r < |s.store.rooms| && d in s.conns && ScreenOk(s, r, d) && !PreReady(s.conns[d].pc)
    requires s.store.rooms[r].presenter == Some(c)
    requires View(t, d) == Connecting && Shown(t, d) == Shown(s, d)
    ensures ScreenOk(t, r, d)
  {
    assert NobodyOwes(t, d);
  }

  lemma FreeAgainScreen(s: System, t: System, c: Conn, r: nat, d: Conn)
    requires t.store == s.store && OnlyMoves(s, t, c) && Owed(t.conns[c].pc).None? && c != d
    requires r < |s.store.rooms| && d in s.conns && ScreenOk(s, r, d) && Owed(s.conns[c].pc) == Some(d)
    requires View(t, d) == Code(s.conns[c].pc.code)
    ensures ScreenOk(t, r, d)
  {
    assert !NobodyOwes(s, d);
    assert NobodyOwes(t, d);
  }

  lemma ReleasedScreen(s: System, e: Event, t: System, r: nat, d: Conn)
    requires Inv(s) && Agrees(s) && Step(s, e, t) && e.Run? && s.conns[e.c].pc == Releasing(r)
    requires r < |s.store.rooms|
    requires s.store.rooms[r].presenter == Some(e.c) && s.store.rooms[r].display == Some(d) && Reaches(s, d)
    requires r < |t.store.rooms| && d in t.conns
    ensures ScreenOk(t, r, d)
  {
    var c := e.c;
    assert RoomScreenOk(s, r) && SlotOk(s, r);
    OneKindOfSlot(s.conns[d].pc);
    var pc := t.conns[c].pc;
    assert t.conns == s.conns[c := s.conns[c].(pc := pc)];
    assert pc.Notify? && pc.display == d && pc.code == s.store.rooms[r].code;
    assert t.store.rooms[r].code == s.store.rooms[r].code && t.store.rooms[r].presenter.None?;
    assert Owed(t.conns[c].pc) == Some(d);
    ScreenIsShown(s.conns[d].sent);
  }

  lemma NotifiedScreen(s: System, e: Event, t: System, r: nat, d: Conn)
    requires Inv(s) && Agrees(s) && Step(s, e, t) && e.Run? && s.conns[e.c].pc.Notify? && s.conns[e.c].pc.display == d
    requires r < |s.store.rooms| && s.store.rooms[r].display == Some(d) && Reaches(s, d)
    requires r < |t.store.rooms| && d in t.conns
    ensures t.store.rooms[r] == s.store.rooms[r] && ScreenOk(t, r, d)
  {
    assert RoomScreenOk(s, r) && SlotOk(s, r);
    OneKindOfSlot(s.conns[d].pc);
    WriterMovesAlone(s, e, t);
    WriterReaches(s, e, t, d);
    FreeAgainScreen(s, t, e.c, r, d);
  }

  lemma PreparedScreenOf(s: System, t: System, r: nat, d: Conn)
    requires r < |s.store.rooms| && d in s.conns && ScreenOk(s, r, d) && s.conns[d].pc.ReadCode?
    requires t == Goto(s, d, SendReady(r, s.store.rooms[r].code))
    ensures ScreenOk(t, r, d)
  {
    assert NobodyOwes(t, d) <==> NobodyOwes(s, d);
  }

  lemma ReadsCode(s: System, e: Event, t: System, r: nat, d: Conn)
    requires Inv(s) && Step(s, e, t) && e.Run? && e.c == d && s.conns[d].pc.ReadCode?
    requires r < |s.store.rooms| && s.store.rooms[r].display == Some(d)
    ensures t == Goto(s, d, SendReady(r, s.store.rooms[r].code))
  {
    assert SlotOk(s, r);
  }

  lemma PreparedScreen(s: System, e: Event, t: System, r: nat, d: Conn)
    requires Inv(s) && Agrees(s) && Step(s, e, t) && e.Run? && e.c == d && s.conns[d].pc.ReadCode?
    requires r < |s.store.rooms| && s.store.rooms[r].display == Some(d) && Reaches(s, d)
    requires r < |t.store.rooms| && d in t.conns
    ensures t.store.rooms[r] == s.store.rooms[r] && ScreenOk(t, r, d)
  {
    hide Next, ScreenOk, Inv;
    assert RoomScreenOk(s, r);
    ReadsCode(s, e, t, r, d);
    PreparedScreenOf(s, t, r, d);
  }

  /** A display that is sent the room's code. */
  lemma ReadyScreenOf(s: System, t: System, r: nat, d: Conn, m: Msg)
    requires r < |s.store.rooms| && d in s.conns && ScreenOk(s, r, d) && s.conns[d].pc.SendReady?
    requires Reaches(s, d) && m.typ == DisplayReady && m.session == s.store.rooms[r].code
    requires t == Goto(Send(s, d, m), d, Serving(s.conns[d].pc.r))
    ensures ScreenOk(t, r, d)
  {
    LogStep(s.conns[d].sent, m);
    assert NobodyOwes(t, d);
  }

  lemma ReadyScreen(s: System, e: Event, t: System, r: nat, d: Conn)
    requires Inv(s) && Agrees(s) && Step(s, e, t) && e.Run? && e.c == d && s.conns[d].pc.SendReady?
    requires r < |s.store.rooms| && s.store.rooms[r].display == Some(d) && Reaches(s, d)
    requires r < |t.store.rooms| && d in t.conns
    ensures t.store.rooms[r] == s.store.rooms[r] && ScreenOk(t, r, d)
  {
    var pc := s.conns[d].pc;
    assert RoomScreenOk(s, r);
    ReadyScreenOf(s, t, r, d, Msg(DisplayReady, pc.code, s.store.rooms[pc.r].id));
  }

  lemma OtherScreen(s: System, e: Event, t: System, r: nat, d: Conn)
    requires Inv(s) && Agrees(s) && Step(s, e, t) && r < |t.store.rooms|
    requires t.store.rooms[r].display == Some(d) && Reaches(t, d) && !Bears(s, e, r, d)
    ensures ScreenOk(t, r, d)
  {
    hide Next;
    OtherStepsSame(s, e, t, r, d);
    RoomStays(s, e, t, r, d);
    OpenBefore(s, e, t, d);
    assert RoomScreenOk(s, r);
    SameScreen(s, t, r, d);
  }

  lemma RoomScreenStaysOk(s: System, e: Event, t: System, r: nat)
    requires Inv(s) && Agrees(s) && Step(s, e, t) && Trusted(s, e) && r < |t.store.rooms|
    ensures RoomScreenOk(t, r)
  {
    if t.store.rooms[r].display.Some? && Reaches(t, t.store.rooms[r].display.value) {
      var d := t.store.rooms[r].display.value;
      if Bears(s, e, r, d) {
        BearingScreen(s, e, t, r, d);
      } else {
        OtherScreen(s, e, t, r, d);
      }
    }
  }

  lemma OpenBefore(s: System, e: Event, t: System, d: Conn)
    requires Inv(s) && Agrees(s) && Step(s, e, t) && d in s.conns && Reaches(t, d)
    ensures Reaches(s, d)
  {
    if e.Run? {
      assert TextOk(s, e.c);
    }
    StepLogs(s, e, t, d);
  }

  lemma PresenterBears(s: System, e: Event, t: System, r: nat, d: Conn)
    requires Inv(s) && Agrees(s) && Step(s, e, t) && Trusted(s, e) && Bears(s, e, r, d)
    requires r < |s.store.rooms| && s.store.rooms[r].display == Some(d) && Reaches(s, d)
    requires r < |t.store.rooms| && d in t.conns && !DisplayPc(s.conns[e.c].pc)
    ensures ScreenOk(t, r, d)
  {
    hide Next;
    var pc := s.conns[e.c].pc;
    if pc.Authorizing? {
      GrantedScreen(s, e, t, e.c, r, d);
    } else if pc.Granted? || pc.Announce? {
      RefreshedScreen(s, e, t, r, d);
    } else if pc.Releasing? {
      ReleasedScreen(s, e, t, r, d);
    } else {
      NotifiedScreen(s, e, t, r, d);
    }
  }

  lemma BearingScreen(s: System, e: Event, t: System, r: nat, d: Conn)
    requires Inv(s) && Agrees(s) && Step(s, e, t) && Trusted(s, e) && r < |t.store.rooms|
    requires t.store.rooms[r].display == Some(d) && Reaches(t, d) && Bears(s, e, r, d)
    ensures ScreenOk(t, r, d)
  {
    hide Next;
    var pc := s.conns[e.c].pc;
    if pc.Registering? {
      AttachedScreen(s, e, t, r, d);
    } else {
      BearingKeepsDisplay(s, e, t, r, d);
      OpenBefore(s, e, t, d);
      if pc.ReadCode? {
        PreparedScreen(s, e, t, r, d);
      } else if pc.SendReady? {
        ReadyScreen(s, e, t, r, d);
      } else {
        PresenterBears(s, e, t, r, d);
      }
    }
  }

  lemma BearingKeepsDisplay(s: System, e: Event, t: System, r: nat, d: Conn)
    requires Inv(s) && Step(s, e, t) && r < |t.store.rooms| && t.store.rooms[r].display == Some(d)
    requires e.Run? && !s.conns[e.c].pc.Registering? && !s.conns[e.c].pc.Removing?
    ensures r < |s.store.rooms| && s.store.rooms[r].display == Some(d) && d in s.conns
  {
    hide Next;
    StepPerforms(s, e, t);
    assert SlotOk(s, r);
  }

  lemma NewcomerTextOk(s: System, e: Event, t: System, c: Conn)
    requires Step(s, e, t) && c in t.conns && c !in s.conns
    ensures TextOk(t, c)
  {
    if e.Run? {
      HandlersMoveForward(s, e, t, e.c);
    }
  }

  lemma StepKeepsAgreement(s: System, e: Event, t: System)
    requires Inv(s) && CodesAreLatest(s) && Agrees(s) && Step(s, e, t) && Trusted(s, e)
    ensures Agrees(t)
  {
    forall c | c in t.conns ensures TextOk(t, c) {
      if c in s.conns {
        TextStaysOk(s, e, t, c);
      } else {
        NewcomerTextOk(s, e, t, c);
      }
    }
    forall r | 0 <= r < |t.store.rooms| ensures RoomScreenOk(t, r) {
      RoomScreenStaysOk(s, e, t, r);
    }
  }

  // ----- runs -----

  ghost predicate TrustedAt(states: seq<System>, events: seq<Event>, k: nat)
    requires IsRun(states, events) && k < |events|
  {
    StepOf(states, events, k) && Trusted(states[k], events[k])
  }

  /** Codes are fresh, and presenters get in only with a code that has been written
      to the room's current display. */
  ghost predicate TrustedRun(states: seq<System>, events: seq<Event>, n: nat)
    requires IsRun(states, events) && n <= |events|
  {
    forall k :: 0 <= k < n ==> TrustedAt(states, events, k)
  }

  lemma TrustedStep(states: seq<System>, events: seq<Event>, k: nat)
    requires IsRun(states, events) && k < |events| && TrustedAt(states, events, k) && Agrees(states[k])
    ensures Agrees(states[k + 1])
  {
    RunKeepsInv(states, events, k);
    RunKeepsCodesLatest(states, events, k);
    StepKeepsAgreement(states[k], events[k], states[k + 1]);
  }

  lemma {:induction false} TrustedRunAgrees(states: seq<System>, events: seq<Event>, n: nat)
    requires IsRun(states, events) && n <= |events| && TrustedRun(states, events, n)
    ensures Agrees(states[n])
  {
    if n > 0 {
      TrustedRunAgrees(states, events, n - 1);
      TrustedStep(states, events, n - 1);
    }
  }

  /** No handler is between changing room r and writing that change to d. */
  ghost predicate Settled(s: System, d: Conn) {
    && NobodyOwes(s, d)
    && (forall c :: c in s.conns ==> !(s.conns[c].pc.Granted? && s.conns[c].pc.display == d))
  }

  /** What the display's browser shows now. */
  function Showing(s: System, d: Conn): Screen
    requires d in s.conns && s.conns[d].read <= |s.conns[d].sent|
  {
    ScreenOf(s.conns[d].sent[..s.conns[d].read])
  }

  /** Whenever the display of a room has its first code, its channel is drained and
      no handler is mid-way, it shows the code a presenter must enter if the slot is
      free, and ------ if it is taken; across grants, releases and replacements. */
  lemma DisplayAgreesWithServer(states: seq<System>, events: seq<Event>, n: nat, r: nat, d: Conn)
    requires IsRun(states, events) && n <= |events| && TrustedRun(states, events, n)
    requires r < |states[n].store.rooms| && states[n].store.rooms[r].display == Some(d)
    requires Reaches(states[n], d) && states[n].conns[d].read == |states[n].conns[d].sent|
    requires View(states[n], d) != Blank && Settled(states[n], d)
    ensures Showing(states[n], d) ==
      if states[n].store.rooms[r].presenter.None? then Code(states[n].store.rooms[r].code) else Connecting
  {
    TrustedRunAgrees(states, events, n);
    RunKeepsInv(states, events, n);
    var s := states[n];
    assert RoomScreenOk(s, r) && SlotOk(s, r);
    assert s.conns[d].sent[..s.conns[d].read] == s.conns[d].sent;
    if s.store.rooms[r].presenter.Some? {
      PresenterKnowsDisplay(s, s.store.rooms[r].presenter.value, r, d);
    }
  }
}
