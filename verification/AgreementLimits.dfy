/** The condition of the agreement theorem cannot be weakened: granting the slot on a
    code that was not written to the current display lets the two sides disagree, unless
    the display's handler leaves without serving it. */
module AgreementLimits {
  import opened Wrappers
  import opened Rooms
  import opened Signalling
  import opened SlotInvariant
  import opened RoomActions
  import opened SignallingTheorems
  import opened Reservations
  import opened Screens
  import opened Agreement

  // ----- continuations -----

  /** es is a possible continuation of s, ending in u, of trusted steps only. */
  ghost predicate TrustedPath(s: System, es: seq<Event>, u: System)
    decreases |es|
  {
    if es == [] then u == s
    else
      && PointersOk(s) && Enabled(s, es[0]) && Trusted(s, es[0])
      && TrustedPath(Next(s, es[0]), es[1..], u)
  }

  ghost predicate Continues(s: System, u: System) {
    exists es :: TrustedPath(s, es, u)
  }

  lemma {:induction false} PathsJoin(s: System, es: seq<Event>, u: System, fs: seq<Event>, v: System)
    requires TrustedPath(s, es, u) && TrustedPath(u, fs, v)
    ensures TrustedPath(s, es + fs, v)
    decreases |es|
  {
    if es == [] {
      assert es + fs == fs;
    } else {
      PathsJoin(Next(s, es[0]), es[1..], u, fs, v);
      assert (es + fs)[0] == es[0] && (es + fs)[1..] == es[1..] + fs;
    }
  }

  lemma OneStepPath(s: System, e: Event)
    requires PointersOk(s) && Enabled(s, e) && Trusted(s, e)
    ensures TrustedPath(s, [e], Next(s, e))
  {
    assert [e][1..] == [];
  }

  /** Every open display that has its first code and is settled shows the right thing. */
  ghost predicate ScreensAgree(s: System) {
    forall r :: 0 <= r < |s.store.rooms| ==> ScreenAgrees(s, r)
  }

  ghost predicate ScreenAgrees(s: System, r: nat)
    requires r < |s.store.rooms|
  {
    var room := s.store.rooms[r];
    room.display.Some? && Reaches(s, room.display.value) && View(s, room.display.value) != Blank
      && Settled(s, room.display.value) ==>
      View(s, room.display.value) == if room.presenter.None? then Code(room.code) else Connecting
  }

  lemma AgreesImpliesScreensAgree(s: System)
    requires Inv(s) && Agrees(s)
    ensures ScreensAgree(s)
  {
    forall r | 0 <= r < |s.store.rooms| ensures ScreenAgrees(s, r) {
      assert RoomScreenOk(s, r) && SlotOk(s, r);
      var room := s.store.rooms[r];
      if room.display.Some? && room.presenter.Some? {
        PresenterKnowsDisplay(s, room.presenter.value, r, room.display.value);
      }
    }
  }

  lemma {:induction false} PathKeepsAgreement(s: System, es: seq<Event>, u: System)
    requires Inv(s) && CodesAreLatest(s) && Agrees(s) && TrustedPath(s, es, u)
    ensures Inv(u) && CodesAreLatest(u) && Agrees(u) && ScreensAgree(u)
    decreases |es|
  {
    if es == [] {
      AgreesImpliesScreensAgree(s);
    } else {
      var t := Next(s, es[0]);
      StepKeepsInv(s, es[0], t);
      StepKeepsCodesLatest(s, es[0], t);
      StepKeepsAgreement(s, es[0], t);
      PathKeepsAgreement(t, es[1..], u);
    }
  }

  // ----- a display that has not been sent its code gets it late -----

  const GO := Input(true, "", Msg(OtherType(""), "", ""))

  predicate Unsent(pc: PC, r: nat, d: Conn) {
    PreReady(pc) && DisplaySlot(pc) == Some(r) && d !in Victims(pc)
  }

  function StepsToReady(pc: PC): nat {
    match pc
    case Evicting(_, victims) => 4 + |victims|
    case SendIce(_) => 3
    case ReadCode(_) => 2
    case SendReady(_, _) => 1
    case _ => 0
  }

  lemma PrepareStep(s: System, r: nat, d: Conn)
    requires PointersOk(s) && Reaches(s, d) && Unsent(s.conns[d].pc, r, d)
    ensures
      var t := Next(s, Run(d, GO));
      && Trusted(s, Run(d, GO)) && PointersOk(t)
      && t.store == s.store && OnlyMoves(s, t, d) && Reaches(t, d)
      && (if s.conns[d].pc.SendReady? then t.conns[d].pc == Serving(r) && View(t, d).Code?
          else Unsent(t.conns[d].pc, r, d) && StepsToReady(t.conns[d].pc) < StepsToReady(s.conns[d].pc))
  {
    var pc := s.conns[d].pc;
    if pc.SendReady? {
      LogStep(s.conns[d].sent, Msg(DisplayReady, pc.code, s.store.rooms[r].id));
    } else {
      PrepareEarly(s, r, d);
    }
  }

  /** The next point of a handler that is preparing its display. */
  function Prepared(s: System, pc: PC): PC
    requires PointersOk(s) && PcRoom(pc).Some? && PcRoom(pc).value < |s.store.rooms|
  {
    match pc
    case Evicting(r, victims) => if victims == [] then SendIce(r) else Evicting(r, victims[1..])
    case SendIce(r) => ReadCode(r)
    case ReadCode(r) => SendReady(r, s.store.rooms[r].code)
    case _ => pc
  }

  lemma PreparedNext(s: System, r: nat, d: Conn)
    requires PointersOk(s) && Reaches(s, d) && Unsent(s.conns[d].pc, r, d) && !s.conns[d].pc.SendReady?
    ensures PcRoom(s.conns[d].pc) == Some(r) && r < |s.store.rooms|
    ensures
      var t := Next(s, Run(d, GO));
      && t.store == s.store && t.conns.Keys == s.conns.Keys
      && t.conns[d].pc == Prepared(s, s.conns[d].pc) && t.conns[d].isOpen
  {
    hide EntryStep, PresenterStep, RemoveDisplay, SetDisplay;
  }

  lemma PrepareEarly(s: System, r: nat, d: Conn)
    requires PointersOk(s) && Reaches(s, d) && Unsent(s.conns[d].pc, r, d) && !s.conns[d].pc.SendReady?
    ensures
      var t := Next(s, Run(d, GO));
      && Trusted(s, Run(d, GO)) && PointersOk(t)
      && t.store == s.store && OnlyMoves(s, t, d) && Reaches(t, d)
      && Unsent(t.conns[d].pc, r, d) && StepsToReady(t.conns[d].pc) < StepsToReady(s.conns[d].pc)
  {
    hide Next;
    var t := Next(s, Run(d, GO));
    var pc := s.conns[d].pc;
    PreparedNext(s, r, d);
    forall q | q in s.conns && q != d ensures t.conns[q].pc == s.conns[q].pc {
      HandlersMoveForward(s, Run(d, GO), t, q);
    }
    if pc.Evicting? && pc.victims != [] {
      assert forall v :: v in pc.victims[1..] ==> v in pc.victims;
    }
  }

  /** Its handler, left to itself, evicts, sends the ICE configuration and then
      whatever code it finds. */
  lemma {:induction false} PreparePath(s: System, r: nat, d: Conn) returns (es: seq<Event>, u: System)
    requires PointersOk(s) && Reaches(s, d) && Unsent(s.conns[d].pc, r, d)
    ensures TrustedPath(s, es, u) && u.store == s.store && OnlyMoves(s, u, d)
    ensures Reaches(u, d) && u.conns[d].pc == Serving(r) && View(u, d).Code?
    decreases StepsToReady(s.conns[d].pc)
  {
    var e := Run(d, GO);
    var t := Next(s, e);
    PrepareStep(s, r, d);
    OneStepPath(s, e);
    if s.conns[d].pc.SendReady? {
      es, u := [e], t;
    } else {
      var fs, v := PreparePath(t, r, d);
      PathsJoin(s, [e], t, fs, v);
      es, u := [e] + fs, v;
    }
  }

  // ----- the condition is exact -----

  /** c has just been granted the slot of r, beside the open display d, in state s. */
  ghost predicate JustGranted(s: System, c: Conn, r: nat, d: Conn) {
    && Inv(s) && c in s.conns && s.conns[c].pc.Granted? && s.conns[c].pc.r == r && s.conns[c].pc.display == d
    && r < |s.store.rooms| && s.store.rooms[r].display == Some(d) && s.store.rooms[r].presenter == Some(c)
    && Reaches(s, d)
  }

  /** A settled state in which the display shows a code although the slot is taken. */
  ghost predicate Misleads(s: System, r: nat, d: Conn) {
    && r < |s.store.rooms| && s.store.rooms[r].display == Some(d) && s.store.rooms[r].presenter.Some?
    && Reaches(s, d) && View(s, d).Code? && Settled(s, d)
  }

  lemma MisleadsDisagrees(s: System, r: nat, d: Conn)
    requires Misleads(s, r, d)
    ensures !ScreensAgree(s)
  {
    assert !ScreenAgrees(s, r);
  }

  /** refreshCode is written. */
  lemma RefreshPath(s: System, c: Conn, r: nat, d: Conn) returns (t: System)
    requires JustGranted(s, c, r, d) && PointersOk(s)
    ensures TrustedPath(s, [Run(c, GO)], t) && Refreshed(t, c, r, d) && OnlyMoves(s, t, c)
    ensures t.conns[d].pc == s.conns[d].pc
  {
    var e := Run(c, GO);
    t := Next(s, e);
    OneStepPath(s, e);
    WriterMovesAlone(s, e, t);
    StepKeepsInv(s, e, t);
    InvImpliesPointers(t);
    OneGrantedAtMost(s, c, r, d);
  }

  lemma OneGrantedAtMost(s: System, c: Conn, r: nat, d: Conn)
    requires JustGranted(s, c, r, d)
    ensures c != d && d in s.conns
    ensures forall q :: q in s.conns && q != c ==> !(s.conns[q].pc.Granted? && s.conns[q].pc.display == d)
  {
    DisplayEvictsOthers(s, r, d);
    forall q | q in s.conns && q != c ensures !(s.conns[q].pc.Granted? && s.conns[q].pc.display == d) {
      PresenterKnowsDisplay(s, q, r, d);
    }
  }

  lemma DisplayEvictsOthers(s: System, r: nat, d: Conn)
    requires Inv(s) && r < |s.store.rooms| && s.store.rooms[r].display == Some(d)
    ensures d in s.conns && d !in Victims(s.conns[d].pc) && DisplaySlot(s.conns[d].pc) == Some(r)
  {
    assert SlotOk(s, r);
    assert ConnOk(s, d);
  }

  /** If another presenter's handler still owes presenterClosed, it writes it after
      refreshCode has gone by. */
  lemma LateClosedMisleads(s: System, c: Conn, r: nat, d: Conn, q: Conn) returns (es: seq<Event>, u: System)
    requires JustGranted(s, c, r, d)
    requires q in s.conns && Owed(s.conns[q].pc) == Some(d)
    requires forall p :: p in s.conns && Owed(s.conns[p].pc) == Some(d) ==> p == q
    ensures TrustedPath(s, es, u) && Misleads(u, r, d)
  {
    hide Next, TrustedPath, Inv;
    InvImpliesPointers(s);
    var t := RefreshPath(s, c, r, d);
    u := ClosedAfterRefresh(t, c, r, d, q);
    PathsJoin(s, [Run(c, GO)], t, [Run(q, GO)], u);
    es := [Run(c, GO)] + [Run(q, GO)];
  }

  /** After refreshCode: the slot is taken, and nobody is between a grant and its write. */
  ghost predicate Refreshed(s: System, c: Conn, r: nat, d: Conn) {
    && PointersOk(s) && c in s.conns && c != d && s.conns[c].pc.Greeting? && Reaches(s, d)
    && r < |s.store.rooms| && s.store.rooms[r].display == Some(d) && s.store.rooms[r].presenter == Some(c)
    && (forall q :: q in s.conns ==> !(s.conns[q].pc.Granted? && s.conns[q].pc.display == d))
  }

  lemma ClosedAfterRefresh(t: System, c: Conn, r: nat, d: Conn, q: Conn) returns (u: System)
    requires Refreshed(t, c, r, d) && q in t.conns && Owed(t.conns[q].pc) == Some(d)
    requires forall p :: p in t.conns && Owed(t.conns[p].pc) == Some(d) ==> p == q
    ensures TrustedPath(t, [Run(q, GO)], u) && Misleads(u, r, d)
  {
    u := ClosedPath(t, q, d);
    NowSettled(t, u, q, d);
  }

  lemma ReadyAfterRefresh(t: System, c: Conn, r: nat, d: Conn) returns (es: seq<Event>, u: System)
    requires Refreshed(t, c, r, d) && Unsent(t.conns[d].pc, r, d) && NobodyOwes(t, d)
    ensures TrustedPath(t, es, u) && Misleads(u, r, d)
  {
    es, u := PreparePath(t, r, d);
    NowSettled(t, u, d, d);
  }

  /** presenterClosed is written. */
  lemma ClosedPath(s: System, q: Conn, d: Conn) returns (u: System)
    requires PointersOk(s) && q in s.conns && Owed(s.conns[q].pc) == Some(d) && Reaches(s, d)
    ensures TrustedPath(s, [Run(q, GO)], u) && Reaches(u, d) && View(u, d).Code?
    ensures u.store == s.store && OnlyMoves(s, u, q) && Owed(u.conns[q].pc).None? && !u.conns[q].pc.Granted?
  {
    var e := Run(q, GO);
    u := Next(s, e);
    OneStepPath(s, e);
    WriterMovesAlone(s, e, u);
    WriterReaches(s, e, u, d);
  }

  /** A presenter let in on a code that its room's open display was never sent. */
  lemma UnshownGrantMisleads(s: System, e: Event, t: System, c: Conn, r: nat, d: Conn)
    returns (es: seq<Event>, u: System)
    requires Inv(s) && Agrees(s) && Step(s, e, t) && Grants(s, e, c, r) && DrawsFresh(s, e)
    requires s.store.rooms[r].display == Some(d) && Reaches(s, d) && !LeavesUnserved(s, d)
    requires ActionOf(s, e).code !in Shown(s, d)
    ensures TrustedPath(t, es, u) && Misleads(u, r, d)
  {
    hide Next, TrustedPath, JustGranted, Misleads, Inv, Agrees;
    GrantJustGranted(s, e, t, c, r, d);
    es, u := HiddenCodeMisleads(s, t, c, r, d);
  }

  /** The display is not sent the code that was accepted: it is still waiting for its first
      one, or for presenterClosed. */
  lemma HiddenCodeMisleads(s: System, t: System, c: Conn, r: nat, d: Conn) returns (es: seq<Event>, u: System)
    requires Inv(s) && Agrees(s) && JustGranted(t, c, r, d) && c in s.conns && c != d
    requires r < |s.store.rooms| && s.store.rooms[r].display == Some(d) && s.store.rooms[r].presenter.None?
    requires Reaches(s, d) && !LeavesUnserved(s, d) && s.store.rooms[r].code !in Shown(s, d)
    requires s.conns[c].pc.Authorizing? && t.conns == s.conns[c := s.conns[c].(pc := t.conns[c].pc)]
    ensures TrustedPath(t, es, u) && Misleads(u, r, d)
  {
    hide TrustedPath;
    ScreenIsShown(s.conns[d].sent);
    assert RoomScreenOk(s, r);
    DisplayEvictsOthers(s, r, d);
    if NobodyOwes(s, d) {
      es, u := LateReadyMisleads(t, c, r, d);
    } else {
      var q :| q in s.conns && Owed(s.conns[q].pc) == Some(d);
      es, u := LateClosedMisleads(t, c, r, d, q);
    }
  }

  lemma GrantJustGranted(s: System, e: Event, t: System, c: Conn, r: nat, d: Conn)
    requires Inv(s) && Step(s, e, t) && Grants(s, e, c, r)
    requires s.store.rooms[r].display == Some(d) && Reaches(s, d)
    ensures JustGranted(t, c, r, d)
    ensures t.conns == s.conns[c := s.conns[c].(pc := t.conns[c].pc)] && c != d
  {
    hide Next;
    StepKeepsInv(s, e, t);
    GrantSets(s, e, t, c, r);
    DisplayEvictsOthers(s, r, d);
  }

  lemma NowSettled(s: System, u: System, x: Conn, d: Conn)
    requires OnlyMoves(s, u, x) && Owed(u.conns[x].pc).None? && !u.conns[x].pc.Granted?
    requires forall q :: q in s.conns && q != x ==> Owed(s.conns[q].pc) != Some(d)
    requires forall q :: q in s.conns && q != x ==> !(s.conns[q].pc.Granted? && s.conns[q].pc.display == d)
    ensures Settled(u, d)
  {
  }

  /** If the display had not been sent its code yet, its handler sends it one after
      refreshCode has gone by. */
  lemma LateReadyMisleads(s: System, c: Conn, r: nat, d: Conn) returns (es: seq<Event>, u: System)
    requires JustGranted(s, c, r, d) && PreReady(s.conns[d].pc) && NobodyOwes(s, d)
    ensures TrustedPath(s, es, u) && Misleads(u, r, d)
  {
    hide Next, TrustedPath;
    InvImpliesPointers(s);
    DisplayEvictsOthers(s, r, d);
    var t := RefreshPath(s, c, r, d);
    var fs;
    fs, u := ReadyAfterRefresh(t, c, r, d);
    PathsJoin(s, [Run(c, GO)], t, fs, u);
    es := [Run(c, GO)] + fs;
  }

  /** In a state reached by trusted steps, a grant beside an open display is safe, that is,
      every trusted continuation keeps all screens in agreement, exactly if the accepted
      code had been written to that display, or it leaves without ever having been sent one. */
  lemma GrantIsSafeIffShown(s: System, e: Event, t: System, c: Conn, r: nat, d: Conn)
    requires Inv(s) && CodesAreLatest(s) && Agrees(s)
    requires Step(s, e, t) && Grants(s, e, c, r) && DrawsFresh(s, e)
    requires s.store.rooms[r].display == Some(d) && Reaches(s, d)
    ensures ActionOf(s, e).code in Shown(s, d) || LeavesUnserved(s, d) <==>
            forall u :: Continues(t, u) ==> ScreensAgree(u)
  {
    hide Next;
    if ActionOf(s, e).code in Shown(s, d) || LeavesUnserved(s, d) {
      StepKeepsInv(s, e, t);
      StepKeepsCodesLatest(s, e, t);
      StepKeepsAgreement(s, e, t);
      forall u | Continues(t, u) ensures ScreensAgree(u) {
        var es :| TrustedPath(t, es, u);
        PathKeepsAgreement(t, es, u);
      }
    } else {
      var es, u := UnshownGrantMisleads(s, e, t, c, r, d);
      MisleadsDisagrees(u, r, d);
      assert Continues(t, u);
    }
  }
}
