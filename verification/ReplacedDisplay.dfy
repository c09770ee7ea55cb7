/** A run in which every submitted code was on a screen of the room, and yet the
    display ends up showing a code while the slot is taken: the screen belonged to a
    display that had already been replaced. */
module ReplacedDisplay {
  import opened Wrappers
  import opened Rooms
  import opened Signalling
  import opened SlotInvariant
  import opened RoomActions
  import opened Reservations
  import opened Screens
  import opened Agreement
  import opened AgreementLimits

  /** A trusted step of s to u. */
  ghost predicate Follows(s: System, e: Event, u: System) {
    PointersOk(s) && Enabled(s, e) && Trusted(s, e) && u == Next(s, e) && PointersOk(u)
  }

  lemma Then(s: System, es: seq<Event>, u: System, e: Event, v: System)
    requires TrustedPath(s, es, u) && Follows(u, e, v)
    ensures TrustedPath(s, es + [e], v) && PointersOk(v)
  {
    hide Next, Trusted;
    OneStepPath(u, e);
    PathsJoin(s, es, u, [e], v);
  }

  function Says(text: string): Input {
    Input(true, text, Msg(OtherType(""), "", ""))
  }

  function With(s: System, c: Conn, h: Handler): System {
    s.(conns := s.conns[c := h])
  }

  function Entered(s: System): System {
    s.(preAuth := s.preAuth + 1)
  }

  lemma WithTwice(s: System, c: Conn, h1: Handler, h2: Handler)
    ensures With(With(s, c, h1), c, h2) == With(s, c, h2)
  {
    assert s.conns[c := h1][c := h2] == s.conns[c := h2];
  }

  // ----- single steps of a handler -----

  lemma Connects(s: System, c: Conn, kind: Kind, id: string)
    requires PointersOk(s) && c !in s.conns
    ensures
      var h := Handler(kind, id, if kind.DisplayKind? then Entering else LockCheck, true, [], 0);
      Follows(s, Connect(c, kind, id), With(s, c, h))
  {
  }

  lemma IsNotLocked(s: System, c: Conn, h: Handler)
    requires PointersOk(s) && c in s.conns && s.conns[c] == h && h.pc.LockCheck?
    ensures Follows(s, Run(c, GO), With(s, c, h.(pc := Entering)))
  {
    hide DisplayStep, PresenterStep;
  }

  lemma EntersAuth(s: System, c: Conn, h: Handler)
    requires PointersOk(s) && c in s.conns && s.conns[c] == h && h.pc.Entering? && s.preAuth < PRE_AUTH_LIMIT
    ensures Follows(s, Run(c, GO), With(Entered(s), c, h.(pc := InAuth)))
  {
    hide DisplayStep, PresenterStep;
  }

  lemma LeavesAuth(s: System, c: Conn, h: Handler, text: string)
    requires PointersOk(s) && c in s.conns && h.pc.InAuth?
    ensures
      Follows(With(Entered(s), c, h), Run(c, Says(text)),
              With(s, c, h.(pc := if h.kind.DisplayKind? then Registering else Lookup(text))))
  {
    hide DisplayStep, PresenterStep;
    assert s.conns[c := h][c := h.(pc := if h.kind.DisplayKind? then Registering else Lookup(text))]
      == s.conns[c := h.(pc := if h.kind.DisplayKind? then Registering else Lookup(text))];
  }

  lemma FindsRoom(s: System, c: Conn, h: Handler, code: string, r: nat)
    requires PointersOk(s) && c in s.conns && s.conns[c] == h && h.pc == Lookup(code)
    requires h.id in s.store.live && s.store.live[h.id] == r
    ensures Follows(s, Run(c, GO), With(s, c, h.(pc := CheckDisplay(r, code))))
  {
    hide EntryStep, DisplayStep;
  }

  lemma FindsDisplay(s: System, c: Conn, h: Handler, code: string, r: nat)
    requires PointersOk(s) && c in s.conns && s.conns[c] == h && h.pc == CheckDisplay(r, code)
    requires r < |s.store.rooms| && s.store.rooms[r].display.Some?
    ensures Follows(s, Run(c, GO), With(s, c, h.(pc := Authorizing(r, code))))
  {
    hide EntryStep, DisplayStep;
  }

  lemma EvictsNobody(s: System, c: Conn, h: Handler, r: nat)
    requires PointersOk(s) && c in s.conns && s.conns[c] == h && h.pc == Evicting(r, [])
    ensures Follows(s, Run(c, GO), With(s, c, h.(pc := SendIce(r))))
  {
    hide EntryStep, PresenterStep;
  }

  lemma SendsIce(s: System, c: Conn, h: Handler, r: nat)
    requires PointersOk(s) && c in s.conns && s.conns[c] == h && h.pc == SendIce(r) && h.isOpen
    ensures Follows(s, Run(c, GO), With(s, c, h.(pc := ReadCode(r), sent := h.sent + [ICE])))
  {
    hide EntryStep, PresenterStep;
  }

  lemma ReadsCodeOf(s: System, c: Conn, h: Handler, r: nat)
    requires PointersOk(s) && c in s.conns && s.conns[c] == h && h.pc == ReadCode(r)
    ensures r < |s.store.rooms|
    ensures Follows(s, Run(c, GO), With(s, c, h.(pc := SendReady(r, s.store.rooms[r].code))))
  {
    hide EntryStep, PresenterStep;
  }

  lemma SendsCode(s: System, c: Conn, h: Handler, r: nat, code: string)
    requires PointersOk(s) && c in s.conns && s.conns[c] == h && h.pc == SendReady(r, code) && h.isOpen
    ensures r < |s.store.rooms|
    ensures
      var m := Msg(DisplayReady, code, s.store.rooms[r].id);
      Follows(s, Run(c, GO), With(s, c, h.(pc := Serving(r), sent := h.sent + [m])))
  {
    hide EntryStep, PresenterStep;
  }

  // ----- and what they add up to -----

  /** A display connects and presents its token. */
  lemma DisplayEnters(s0: System, es: seq<Event>, s: System, c: Conn, id: string)
    requires TrustedPath(s0, es, s) && PointersOk(s) && c !in s.conns && s.preAuth < PRE_AUTH_LIMIT
    ensures
      var h := Handler(DisplayKind, id, Registering, true, [], 0);
      && TrustedPath(s0, es + [Connect(c, DisplayKind, id)] + [Run(c, GO)] + [Run(c, Says(""))], With(s, c, h))
      && PointersOk(With(s, c, h))
  {
    hide Follows, TrustedPath, PointersOk;
    var e := Connect(c, DisplayKind, id);
    var h := Handler(DisplayKind, id, Entering, true, [], 0);
    Connects(s, c, DisplayKind, id);
    Then(s0, es, s, e, With(s, c, h));
    PassesAuth(s0, es + [e], s, c, h, "");
  }

  /** A handler enters and leaves initialAuth. */
  lemma PassesAuth(s0: System, es: seq<Event>, s: System, c: Conn, h: Handler, text: string)
    requires TrustedPath(s0, es, With(s, c, h)) && PointersOk(With(s, c, h))
    requires h.pc.Entering? && s.preAuth < PRE_AUTH_LIMIT
    ensures
      var t := With(s, c, h.(pc := if h.kind.DisplayKind? then Registering else Lookup(text)));
      TrustedPath(s0, es + [Run(c, GO)] + [Run(c, Says(text))], t) && PointersOk(t)
  {
    hide Follows, TrustedPath, PointersOk;
    var s1, inside := With(s, c, h), h.(pc := InAuth);
    EntersAuth(s1, c, h);
    WithTwice(Entered(s), c, h, inside);
    assert Entered(s1) == With(Entered(s), c, h);
    Then(s0, es, s1, Run(c, GO), With(Entered(s), c, inside));
    WithTwice(Entered(s), c, h, inside);
    assert With(Entered(s1), c, inside) == With(Entered(s), c, inside);
    LeavesAuth(s1, c, inside, text);
    var out := h.(pc := if h.kind.DisplayKind? then Registering else Lookup(text));
    WithTwice(s, c, h, out);
    Then(s0, es + [Run(c, GO)], With(Entered(s), c, inside), Run(c, Says(text)), With(s, c, out));
  }

  /** A presenter connects, is not locked out, and submits a code. */
  lemma PresenterSubmits(s0: System, es: seq<Event>, s: System, c: Conn, id: string, code: string)
    requires TrustedPath(s0, es, s) && PointersOk(s) && c !in s.conns && s.preAuth < PRE_AUTH_LIMIT
    ensures
      var h := Handler(PresenterKind, id, Lookup(code), true, [], 0);
      var more := [Connect(c, PresenterKind, id)];
      && TrustedPath(s0, es + more + [Run(c, GO)] + [Run(c, GO)] + [Run(c, Says(code))], With(s, c, h))
      && PointersOk(With(s, c, h))
  {
    hide Follows, TrustedPath, PointersOk;
    var e := Connect(c, PresenterKind, id);
    var h := Handler(PresenterKind, id, LockCheck, true, [], 0);
    Connects(s, c, PresenterKind, id);
    Then(s0, es, s, e, With(s, c, h));
    IsNotLocked(With(s, c, h), c, h);
    WithTwice(s, c, h, h.(pc := Entering));
    Then(s0, es + [e], With(s, c, h), Run(c, GO), With(s, c, h.(pc := Entering)));
    PassesAuth(s0, es + [e] + [Run(c, GO)], s, c, h.(pc := Entering), code);
  }

  /** It finds the room and its display, and is about to be checked. */
  lemma PresenterAsks(s0: System, es: seq<Event>, s: System, c: Conn, h: Handler, code: string, r: nat)
    requires TrustedPath(s0, es, With(s, c, h)) && PointersOk(With(s, c, h)) && h.pc == Lookup(code)
    requires h.id in s.store.live && s.store.live[h.id] == r < |s.store.rooms| && s.store.rooms[r].display.Some?
    ensures TrustedPath(s0, es + [Run(c, GO)] + [Run(c, GO)], With(s, c, h.(pc := Authorizing(r, code))))
    ensures PointersOk(With(s, c, h.(pc := Authorizing(r, code))))
  {
    hide Follows, TrustedPath, PointersOk;
    var h1, h2 := h.(pc := CheckDisplay(r, code)), h.(pc := Authorizing(r, code));
    FindsRoom(With(s, c, h), c, h, code, r);
    WithTwice(s, c, h, h1);
    Then(s0, es, With(s, c, h), Run(c, GO), With(s, c, h1));
    FindsDisplay(With(s, c, h1), c, h1, code, r);
    WithTwice(s, c, h1, h2);
    Then(s0, es + [Run(c, GO)], With(s, c, h1), Run(c, GO), With(s, c, h2));
  }

  /** A display's handler reads the code of its room and sends it. */
  lemma DisplayReads(s0: System, es: seq<Event>, s: System, c: Conn, h: Handler, r: nat)
    requires TrustedPath(s0, es, s) && PointersOk(s) && c in s.conns && s.conns[c] == h
    requires h.pc == ReadCode(r) && h.isOpen
    ensures r < |s.store.rooms|
    ensures
      var m := Msg(DisplayReady, s.store.rooms[r].code, s.store.rooms[r].id);
      var t := With(s, c, h.(pc := Serving(r), sent := h.sent + [m]));
      TrustedPath(s0, es + [Run(c, GO)] + [Run(c, GO)], t) && PointersOk(t)
  {
    hide Follows, TrustedPath, PointersOk;
    ReadsCodeOf(s, c, h, r);
    var room := s.store.rooms[r];
    var h1 := h.(pc := SendReady(r, room.code));
    var h2 := h.(pc := Serving(r), sent := h.sent + [Msg(DisplayReady, room.code, room.id)]);
    Then(s0, es, s, Run(c, GO), With(s, c, h1));
    SendsCode(With(s, c, h1), c, h1, r, room.code);
    WithTwice(s, c, h1, h2);
    Then(s0, es + [Run(c, GO)], With(s, c, h1), Run(c, GO), With(s, c, h2));
  }

  /** A display with nobody to evict sends the ICE configuration. */
  lemma DisplayPrepares(s0: System, es: seq<Event>, s: System, c: Conn, h: Handler, r: nat)
    requires TrustedPath(s0, es, With(s, c, h)) && PointersOk(With(s, c, h)) && h.pc == Evicting(r, []) && h.isOpen
    ensures
      var t := With(s, c, h.(pc := ReadCode(r), sent := h.sent + [ICE]));
      TrustedPath(s0, es + [Run(c, GO)] + [Run(c, GO)], t) && PointersOk(t)
  {
    hide Follows, TrustedPath, PointersOk;
    var h1, h2 := h.(pc := SendIce(r)), h.(pc := ReadCode(r), sent := h.sent + [ICE]);
    EvictsNobody(With(s, c, h), c, h, r);
    WithTwice(s, c, h, h1);
    Then(s0, es, With(s, c, h), Run(c, GO), With(s, c, h1));
    SendsIce(With(s, c, h1), c, h1, r);
    WithTwice(s, c, h1, h2);
    Then(s0, es + [Run(c, GO)], With(s, c, h1), Run(c, GO), With(s, c, h2));
  }

  const OLD: Conn := 1
  const NEW: Conn := 2
  const GUEST: Conn := 3

  const ICE := Msg(IceConfig, "", "")

  function RoomOf(id: string, d: Conn, code: string, generation: nat): RoomState {
    RoomState(id, Some(d), code, generation, None, map[])
  }

  lemma OneIssue(a: string)
    ensures IssuedCodes([Issue(0, a)]) == {a}
  {
    IssuedGrows([], Issue(0, a));
    assert [] + [Issue(0, a)] == [Issue(0, a)];
  }

  lemma TwoIssues(a: string, b: string)
    ensures IssuedCodes([Issue(0, a), Issue(0, b)]) == {a, b}
  {
    OneIssue(a);
    IssuedGrows([Issue(0, a)], Issue(0, b));
    assert [Issue(0, a)] + [Issue(0, b)] == [Issue(0, a), Issue(0, b)];
  }

  /** The first display has taken the room. */
  function Taken(id: string, a: string): System {
    System(Store([RoomOf(id, OLD, a, 1)], map[id := 0]), map[], 0, [Issue(0, a)])
  }

  function FirstHandler(id: string, pc: PC, sent: seq<Msg>): Handler {
    Handler(DisplayKind, id, pc, true, sent, 0)
  }

  lemma FirstRegisters(id: string, a: string)
    ensures
      Follows(With(Initial(), OLD, FirstHandler(id, Registering, [])), Run(OLD, Says(a)),
              With(Taken(id, a), OLD, FirstHandler(id, Evicting(0, []), [])))
  {
    hide EntryStep, PresenterStep;
    var s := With(Initial(), OLD, FirstHandler(id, Registering, []));
    var t := Next(s, Run(OLD, Says(a)));
    assert t.conns[OLD].pc.victims == [];
    assert t.store.rooms == [RoomOf(id, OLD, a, 1)];
    assert t.store.live == map[id := 0];
    assert t.issued == [Issue(0, a)];
    assert t.conns == map[OLD := FirstHandler(id, Evicting(0, []), [])];
  }

  /** The first display is attached and about to read the room's code. */
  function Attached(id: string, a: string): System {
    With(Taken(id, a), OLD, FirstHandler(id, ReadCode(0), [ICE]))
  }

  lemma AttachedIsReached(id: string, a: string) returns (es: seq<Event>)
    ensures TrustedPath(Initial(), es, Attached(id, a)) && PointersOk(Attached(id, a))
  {
    hide Follows, PointersOk, Next;
    InitialPath();
    hide TrustedPath;
    DisplayEnters(Initial(), [], Initial(), OLD, id);
    es := [] + [Connect(OLD, DisplayKind, id)] + [Run(OLD, GO)] + [Run(OLD, Says(""))];
    var s := With(Initial(), OLD, FirstHandler(id, Registering, []));
    FirstRegisters(id, a);
    Then(Initial(), es, s, Run(OLD, Says(a)), With(Taken(id, a), OLD, FirstHandler(id, Evicting(0, []), [])));
    es := es + [Run(OLD, Says(a))];
    DisplayPrepares(Initial(), es, Taken(id, a), OLD, FirstHandler(id, Evicting(0, []), []), 0);
    es := es + [Run(OLD, GO)] + [Run(OLD, GO)];
    assert [] + [ICE] == [ICE];
  }

  lemma InitialPath()
    ensures TrustedPath(Initial(), [], Initial()) && PointersOk(Initial())
  {
  }

  /** A second display has taken the room over; the first has not been closed yet. */
  function Replaced(id: string, a: string, b: string): System {
    System(Store([RoomOf(id, NEW, b, 2)], map[id := 0]),
           map[OLD := Handler(DisplayKind, id, ReadCode(0), true, [ICE], 0),
               NEW := Handler(DisplayKind, id, Evicting(0, [OLD]), true, [], 0)],
           0, [Issue(0, a), Issue(0, b)])
  }

  lemma ReplacedIsReached(id: string, a: string, b: string) returns (es: seq<Event>)
    requires a != b
    ensures TrustedPath(Initial(), es, Replaced(id, a, b)) && PointersOk(Replaced(id, a, b))
  {
    hide Follows, TrustedPath, PointersOk, Next, Replaced;
    var s := Attached(id, a);
    es := AttachedIsReached(id, a);
    DisplayEnters(Initial(), es, s, NEW, id);
    es := es + [Connect(NEW, DisplayKind, id)] + [Run(NEW, GO)] + [Run(NEW, Says(""))];
    var t := With(s, NEW, FirstHandler(id, Registering, []));
    var e := Run(NEW, Says(b));
    SecondRegisters(t, id, a, b);
    Then(Initial(), es, t, e, Replaced(id, a, b));
    es := es + [e];
  }

  lemma SecondRegisters(t: System, id: string, a: string, b: string)
    requires a != b && t == With(Attached(id, a), NEW, FirstHandler(id, Registering, []))
    ensures Follows(t, Run(NEW, Says(b)), Replaced(id, a, b))
  {
    hide EntryStep, PresenterStep;
    OneIssue(a);
    var u := Next(t, Run(NEW, Says(b)));
    assert u.store.rooms == Replaced(id, a, b).store.rooms;
    assert u.conns[NEW].pc.victims == [OLD];
    assert u.conns == Replaced(id, a, b).conns;
    assert u == Replaced(id, a, b);
  }

  /** The first display's handler has read the code of the room, which is by now the
      second display's code, and its browser shows it. */
  function Misled(id: string, a: string, b: string): System {
    With(Replaced(id, a, b), OLD, Served(id, b, 2))
  }

  function Served(id: string, b: string, taken: nat): Handler {
    Handler(DisplayKind, id, Serving(0), true, [ICE, Msg(DisplayReady, b, id)], taken)
  }

  /** A browser takes its next message. */
  lemma Delivers(s: System, c: Conn, h: Handler)
    requires PointersOk(s) && c in s.conns && s.conns[c] == h && h.read < |h.sent|
    ensures Follows(s, Deliver(c), With(s, c, h.(read := h.read + 1)))
  {
  }

  lemma MisledIsReached(id: string, a: string, b: string) returns (es: seq<Event>)
    requires a != b
    ensures TrustedPath(Initial(), es, Misled(id, a, b)) && PointersOk(Misled(id, a, b))
  {
    hide Follows, TrustedPath, PointersOk;
    var s := Replaced(id, a, b);
    es := ReplacedIsReached(id, a, b);
    DisplayReads(Initial(), es, s, OLD, FirstHandler(id, ReadCode(0), [ICE]), 0);
    es := es + [Run(OLD, GO)] + [Run(OLD, GO)];
    assert [ICE] + [Msg(DisplayReady, b, id)] == [ICE, Msg(DisplayReady, b, id)];
    es := TakesBoth(es, s, id, b);
  }

  lemma TakesBoth(es: seq<Event>, s: System, id: string, b: string) returns (fs: seq<Event>)
    requires TrustedPath(Initial(), es, With(s, OLD, Served(id, b, 0))) && PointersOk(With(s, OLD, Served(id, b, 0)))
    ensures TrustedPath(Initial(), fs, With(s, OLD, Served(id, b, 2))) && PointersOk(With(s, OLD, Served(id, b, 2)))
  {
    hide Follows, TrustedPath, PointersOk;
    Delivers(With(s, OLD, Served(id, b, 0)), OLD, Served(id, b, 0));
    WithTwice(s, OLD, Served(id, b, 0), Served(id, b, 1));
    Then(Initial(), es, With(s, OLD, Served(id, b, 0)), Deliver(OLD), With(s, OLD, Served(id, b, 1)));
    fs := es + [Deliver(OLD)];
    Delivers(With(s, OLD, Served(id, b, 1)), OLD, Served(id, b, 1));
    WithTwice(s, OLD, Served(id, b, 1), Served(id, b, 2));
    Then(Initial(), fs, With(s, OLD, Served(id, b, 1)), Deliver(OLD), With(s, OLD, Served(id, b, 2)));
    fs := fs + [Deliver(OLD)];
  }

  /** A presenter has submitted that code. */
  function Submitted(id: string, a: string, b: string): System {
    With(Misled(id, a, b), GUEST, Handler(PresenterKind, id, Authorizing(0, b), true, [], 0))
  }

  lemma SubmittedIsReached(id: string, a: string, b: string) returns (es: seq<Event>)
    requires a != b
    ensures TrustedPath(Initial(), es, Submitted(id, a, b)) && PointersOk(Submitted(id, a, b))
  {
    hide Follows, TrustedPath, PointersOk;
    var s := Misled(id, a, b);
    es := MisledIsReached(id, a, b);
    PresenterSubmits(Initial(), es, s, GUEST, id, b);
    es := es + [Connect(GUEST, PresenterKind, id)] + [Run(GUEST, GO)] + [Run(GUEST, GO)] + [Run(GUEST, Says(b))];
    PresenterAsks(Initial(), es, s, GUEST, Handler(PresenterKind, id, Lookup(b), true, [], 0), b, 0);
    es := es + [Run(GUEST, GO)] + [Run(GUEST, GO)];
  }

  /** The agreement theorem fails if codes seen on a replaced display may be submitted:
      from the initial state, with fresh codes a, b, c, a presenter is let in on a code
      that a screen of its room shows, and the room's display, settled, then shows a
      code while the slot is taken. */
  lemma ReplacedDisplayMisleads(id: string, a: string, b: string, c: string)
    returns (es: seq<Event>, s: System, e: Event, t: System, fs: seq<Event>, u: System)
    requires a != b && b != c && a != c
    ensures TrustedPath(Initial(), es, s) && Step(s, e, t) && Grants(s, e, GUEST, 0) && DrawsFresh(s, e)
    ensures OLD in s.conns && s.conns[OLD].id == id && s.conns[OLD].read <= |s.conns[OLD].sent|
    ensures Showing(s, OLD) == Code(ActionOf(s, e).code)
    ensures TrustedPath(t, fs, u) && Misleads(u, 0, NEW)
  {
    hide Next;
    hide Submitted, Next, TrustedPath;
    s := Submitted(id, a, b);
    es := SubmittedIsReached(id, a, b);
    InitialInv();
    InitialAgrees();
    PathKeepsAgreement(Initial(), es, s);
    SubmittedShows(id, a, b);
    e := Run(GUEST, Says(c));
    SubmittedGrants(id, a, b, c);
    t := Next(s, e);
    fs, u := UnshownGrantMisleads(s, e, t, GUEST, 0, NEW);
  }

  lemma InitialAgrees()
    ensures CodesAreLatest(Initial()) && Agrees(Initial())
  {
  }

  lemma SubmittedGrants(id: string, a: string, b: string, c: string)
    requires a != b && b != c && a != c && PointersOk(Submitted(id, a, b))
    ensures
      var s, e := Submitted(id, a, b), Run(GUEST, Says(c));
      && Enabled(s, e) && Grants(s, e, GUEST, 0) && DrawsFresh(s, e) && ActionOf(s, e).code == b
      && 0 < |s.store.rooms| && s.store.rooms[0].display == Some(NEW) && Reaches(s, NEW)
      && !s.conns[NEW].pc.Removing? && s.conns[OLD].id == id
  {
    TwoIssues(a, b);
  }

  lemma SubmittedShows(id: string, a: string, b: string)
    ensures
      var s := Submitted(id, a, b);
      && OLD in s.conns && NEW in s.conns && s.conns[OLD].read == |s.conns[OLD].sent| == 2
      && Showing(s, OLD) == Code(b) && Shown(s, NEW) == {}
  {
    var s := Submitted(id, a, b);
    assert s.conns[OLD].sent[..2] == [ICE] + [Msg(DisplayReady, b, id)];
    LogStep([ICE], Msg(DisplayReady, b, id));
  }
}
