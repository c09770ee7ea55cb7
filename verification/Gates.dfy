/** What every handler has passed before it can take a slot, over whole runs. */
module Gates {
  import opened Rooms
  import opened Signalling
  import opened SlotInvariant
  import opened RoomActions
  import opened SignallingTheorems
  import opened Writes

  /** Step k of c's handler finds its client not locked out. */
  ghost predicate LockPassed(states: seq<System>, events: seq<Event>, k: nat, c: Conn) {
    && k < |events| < |states| && events[k].Run? && events[k].c == c && c in states[k].conns
    && states[k].conns[c].pc.LockCheck? && events[k].input.ok
  }

  /** Step k of c's handler is let into initialAuth, with fewer than 128 others in it. */
  ghost predicate Admitted(states: seq<System>, events: seq<Event>, k: nat, c: Conn) {
    && k < |events| < |states| && events[k].Run? && events[k].c == c && c in states[k].conns
    && states[k].conns[c].pc.Entering? && |InAuthSet(states[k])| < 128
  }

  /** Step k of c's handler accepts an auth message, and finds this text in it. */
  ghost predicate AuthRead(states: seq<System>, events: seq<Event>, k: nat, c: Conn, text: string) {
    && k < |events| < |states| && events[k].Run? && events[k].c == c && c in states[k].conns
    && states[k].conns[c].pc.InAuth? && events[k].input.ok && events[k].input.text == text
  }

  /** In the first n steps c was admitted, a presenter after its lock was checked. */
  ghost predicate GotIn(states: seq<System>, events: seq<Event>, n: nat, c: Conn, presenter: bool) {
    exists k: nat :: k < n && Admitted(states, events, k, c)
      && (presenter ==> exists l: nat :: l < k && LockPassed(states, events, l, c))
  }

  /** In the first n steps c was admitted, and after that sent this text. */
  ghost predicate CameThrough(
      states: seq<System>, events: seq<Event>, n: nat, c: Conn, presenter: bool, text: string)
  {
    exists k: nat :: k < n && AuthRead(states, events, k, c, text) && GotIn(states, events, k, c, presenter)
  }

  ghost predicate GateOk(states: seq<System>, events: seq<Event>, n: nat, c: Conn)
    requires n < |states| && c in states[n].conns
  {
    var h := states[n].conns[c];
    match h.pc
    case Entering => h.kind.PresenterKind? ==> exists l: nat :: l < n && LockPassed(states, events, l, c)
    case InAuth => GotIn(states, events, n, c, h.kind.PresenterKind?)
    case Registering => exists text :: CameThrough(states, events, n, c, false, text)
    case Lookup(code) => CameThrough(states, events, n, c, true, code)
    case CheckDisplay(_, code) => CameThrough(states, events, n, c, true, code)
    case Authorizing(_, code) => CameThrough(states, events, n, c, true, code)
    case _ => true
  }

  /** Where an early handler comes from. */
  ghost predicate ComesFrom(s: System, c: Conn, input: Input, a: Handler, b: PC) {
    match b
    case Entering => a.pc.LockCheck? && input.ok
    case InAuth => a.pc.Entering? && s.preAuth < PRE_AUTH_LIMIT
    case Registering => a.pc.InAuth? && input.ok && a.kind.DisplayKind?
    case Lookup(code) => a.pc.InAuth? && input.ok && a.kind.PresenterKind? && code == input.text
    case CheckDisplay(_, code) => a.pc == Lookup(code)
    case Authorizing(_, code) => a.pc.CheckDisplay? && a.pc.code == code
    case _ => true
  }

  lemma EntryComesFrom(s: System, c: Conn, input: Input)
    requires c in s.conns && EntryPc(s.conns[c].pc) && !s.conns[c].pc.Done?
    ensures ComesFrom(s, c, input, s.conns[c], EntryStep(s, c, input).conns[c].pc)
  {
  }

  lemma DisplaysComeLate(s: System, c: Conn, input: Input)
    requires PointersOk(s) && c in s.conns && DisplayPc(s.conns[c].pc)
    ensures !Early(DisplayStep(s, c, input).conns[c].pc)
  {
    hide PointersOk, SetDisplay, RemoveDisplay;
  }

  lemma AskersComeFrom(s: System, c: Conn, input: Input)
    requires PointersOk(s) && c in s.conns && AskingPc(s.conns[c].pc)
    ensures ComesFrom(s, c, input, s.conns[c], PresenterStep(s, c, input).conns[c].pc)
  {
    hide PointersOk, Authorize;
  }

  lemma ActorComesFrom(s: System, e: Event, t: System)
    requires Step(s, e, t) && e.Run? && e.c in t.conns
    ensures ComesFrom(s, e.c, e.input, s.conns[e.c], t.conns[e.c].pc)
  {
    hide PointersOk, EntryStep, DisplayStep, PresenterStep;
    var pc := s.conns[e.c].pc;
    HandlersMoveForward(s, e, t, e.c);
    if EntryPc(pc) {
      EntryComesFrom(s, e.c, e.input);
    } else if DisplayPc(pc) {
      DisplaysComeLate(s, e.c, e.input);
    } else if AskingPc(pc) {
      AskersComeFrom(s, e.c, e.input);
    }
  }

  lemma StillIn(states: seq<System>, events: seq<Event>, n: nat, c: Conn, presenter: bool)
    ensures GotIn(states, events, n, c, presenter) ==> GotIn(states, events, n + 1, c, presenter)
  {
  }

  lemma StillThrough(states: seq<System>, events: seq<Event>, n: nat, c: Conn, presenter: bool)
    ensures forall text :: CameThrough(states, events, n, c, presenter, text) ==>
      CameThrough(states, events, n + 1, c, presenter, text)
  {
    forall text | CameThrough(states, events, n, c, presenter, text)
      ensures CameThrough(states, events, n + 1, c, presenter, text)
    {
      var k: nat :| k < n && AuthRead(states, events, k, c, text) && GotIn(states, events, k, c, presenter);
      assert k < n + 1;
    }
  }

  lemma GatesStayPassed(states: seq<System>, events: seq<Event>, n: nat, c: Conn)
    requires n + 1 < |states| && c in states[n].conns && c in states[n + 1].conns && GateOk(states, events, n, c)
    requires states[n + 1].conns[c].pc == states[n].conns[c].pc
    requires states[n + 1].conns[c].kind == states[n].conns[c].kind
    ensures GateOk(states, events, n + 1, c)
  {
    hide GotIn, CameThrough, LockPassed;
    StillIn(states, events, n, c, states[n].conns[c].kind.PresenterKind?);
    StillThrough(states, events, n, c, true);
    StillThrough(states, events, n, c, false);
  }

  lemma GateStep(states: seq<System>, events: seq<Event>, n: nat, c: Conn)
    requires n < |events| && |states| == |events| + 1 && c in states[n].conns && c in states[n + 1].conns
    requires GateOk(states, events, n, c) && events[n].Run? && events[n].c == c
    requires states[n + 1].conns[c].kind == states[n].conns[c].kind && states[n].preAuth == |InAuthSet(states[n])|
    requires ComesFrom(states[n], c, events[n].input, states[n].conns[c], states[n + 1].conns[c].pc)
    ensures GateOk(states, events, n + 1, c)
  {
    hide InAuthSet;
    StillThrough(states, events, n, c, true);
    match states[n + 1].conns[c].pc
    case Entering => assert LockPassed(states, events, n, c);
    case InAuth => assert Admitted(states, events, n, c);
    case Registering =>
      assert AuthRead(states, events, n, c, events[n].input.text);
      assert CameThrough(states, events, n + 1, c, false, events[n].input.text);
    case Lookup(code) => assert AuthRead(states, events, n, c, code);
    case _ =>
  }

  lemma NewcomersHaveNothingToPass(s: System, e: Event, t: System, c: Conn)
    requires Step(s, e, t) && c !in s.conns && c in t.conns
    ensures t.conns[c].pc == if t.conns[c].kind.DisplayKind? then Entering else LockCheck
  {
    if e.Run? {
      hide Next;
      HandlersMoveForward(s, e, t, e.c);
    }
  }

  lemma {:induction false} GatesArePassed(states: seq<System>, events: seq<Event>, n: nat, c: Conn)
    requires IsRun(states, events) && n < |states| && c in states[n].conns
    ensures GateOk(states, events, n, c)
  {
    hide Next, Inv, GateOk, ComesFrom, WritesOf;
    if n == 0 {
      assert false;
    } else {
      var s, e, t := states[n - 1], events[n - 1], states[n];
      StepOfRun(states, events, n - 1);
      if c !in s.conns {
        NewcomersHaveNothingToPass(s, e, t, c);
        FreshGate(states, events, n, c);
      } else {
        GatesArePassed(states, events, n - 1, c);
        HandlersMoveForward(s, e, t, c);
        StepAppends(s, e, t, c);
        if e.Run? && e.c == c {
          ActorComesFrom(s, e, t);
          PreAuthIsExact(states, events, n - 1);
          GateStep(states, events, n - 1, c);
        } else {
          GatesStayPassed(states, events, n - 1, c);
        }
      }
    }
  }

  lemma FreshGate(states: seq<System>, events: seq<Event>, n: nat, c: Conn)
    requires n < |states| && c in states[n].conns
    requires states[n].conns[c].pc == if states[n].conns[c].kind.DisplayKind? then Entering else LockCheck
    ensures GateOk(states, events, n, c)
  {
  }

  /** Whoever is granted a slot was found not to be locked out, then admitted while fewer than
      128 others were being authenticated, and then sent the very code that the room had at
      the moment of the grant. */
  lemma GrantsPassEveryGate(states: seq<System>, events: seq<Event>, i: nat, c: Conn, r: nat)
    requires IsRun(states, events) && i < |events|
    requires Step(states[i], events[i], states[i + 1]) && Grants(states[i], events[i], c, r)
    ensures CameThrough(states, events, i, c, true, states[i].store.rooms[r].code)
  {
    hide CameThrough, Next;
    GatesArePassed(states, events, i, c);
  }

  /** Whoever registers as a display was admitted, and then sent a token that was accepted. */
  lemma RegistrationsPassEveryGate(states: seq<System>, events: seq<Event>, i: nat, c: Conn)
    requires IsRun(states, events) && i < |events| && events[i].Run? && events[i].c == c
    requires c in states[i].conns && states[i].conns[c].pc.Registering?
    ensures exists text :: CameThrough(states, events, i, c, false, text)
  {
    hide CameThrough, Next;
    GatesArePassed(states, events, i, c);
  }
}
