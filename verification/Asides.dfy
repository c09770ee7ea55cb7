/** What a presenter's handler writes to its display, over a whole run: refreshCode first,
    then newSession, then what it relays, and presenterClosed last. */
module Asides {
  import opened Wrappers
  import opened Rooms
  import opened Signalling
  import opened SlotInvariant
  import opened RoomActions
  import opened SignallingTheorems
  import opened Reservations
  import opened Writes
  import opened Relay
  import opened Received
  import opened Sessions

  /** What this step of c's handler writes to another connection, if that is open. */
  function AsideAt(s: System, e: Event, c: Conn): seq<Msg>
    requires PointersOk(s) && Enabled(s, e)
  {
    if e.Run? && e.c == c && WritesOf(s, e).Write? && WritesOf(s, e).to != c && Reaches(s, WritesOf(s, e).to)
    then WritesOf(s, e).ms else []
  }

  ghost function AsidesOf(states: seq<System>, events: seq<Event>, n: nat, c: Conn): seq<Msg>
    requires IsRun(states, events) && n <= |events|
  {
    if n == 0 then []
    else
      StepAt(states, events, n - 1);
      AsidesOf(states, events, n - 1, c) + AsideAt(states[n - 1], events[n - 1], c)
  }

  // ----- the script -----

  function Refresh(code: string): seq<Msg> {
    [Msg(RefreshCode, "", code)]
  }

  function Opening(code: string, sid: string): seq<Msg> {
    [Msg(RefreshCode, "", code), Msg(NewSession, sid, sid)]
  }

  /** Before there is a session. A display that is still open was told to hide its code. */
  ghost predicate ToldToHide(s: System, d: Conn, aside: seq<Msg>) {
    (exists code :: aside == Refresh(code)) || (aside == [] && !Reaches(s, d))
  }

  /** Everything that may have been written by the time the slot is given back. */
  ghost predicate ToldWithSlot(relayed: seq<Msg>, aside: seq<Msg>) {
    || (relayed == [] && aside == [])
    || (relayed == [] && exists code :: aside == Refresh(code))
    || (exists code, sid :: aside == Opening(code, sid) + relayed)
  }

  /** The same with the farewell, if the display was still there. */
  ghost predicate ToldInAll(relayed: seq<Msg>, aside: seq<Msg>) {
    || ToldWithSlot(relayed, aside)
    || (exists front, sid, code ::
          aside == front + [Msg(PresenterClosed, sid, code)] && ToldWithSlot(relayed, front))
  }

  ghost predicate AsideScript(s: System, pc: PC, relayed: seq<Msg>, aside: seq<Msg>) {
    match pc
    case Greeting(_, d, _) => relayed == [] && ToldToHide(s, d, aside)
    case AwaitStart(_, d, _) => relayed == [] && ToldToHide(s, d, aside)
    case Starting(_, d, _) => relayed == [] && ToldToHide(s, d, aside)
    case Announce(_, d, _) => relayed == [] && ToldToHide(s, d, aside)
    case Confirm(_, _, sid) => exists code :: relayed == [] && aside == Opening(code, sid)
    case Relaying(_, _, sid) => exists code :: aside == Opening(code, sid) + relayed
    case RelayDown(_, _, sid, _) => exists code :: aside == Opening(code, sid) + relayed
    case Releasing(_) => ToldWithSlot(relayed, aside)
    case Notify(_, _, _) => ToldWithSlot(relayed, aside)
    case Closing => ToldInAll(relayed, aside)
    case Done => ToldInAll(relayed, aside)
    case _ => relayed == [] && aside == []
  }

  // ----- step by step -----

  /** What a step of a presenter's handler can write to its display, and where it goes. */
  predicate Asided(s: System, a: PC, b: PC, aside: seq<Msg>, relayed: seq<Msg>) {
    && (relayed == if a.RelayDown? then aside else [])
    && match a
       case Granted(_, d, _, code) =>
         b.Greeting? && b.display == d && aside == if Reaches(s, d) then Refresh(code) else []
       case Greeting(_, d, _) => aside == [] && ((b.AwaitStart? && b.display == d) || b.Releasing?)
       case AwaitStart(_, d, _) => aside == [] && ((b.Starting? && b.display == d) || b.Releasing?)
       case Starting(_, d, _) => aside == [] && ((b.Announce? && b.display == d) || b.Releasing?)
       case Announce(_, d, sid) =>
         if b.Confirm? then Reaches(s, d) && b.sid == sid && aside == [Msg(NewSession, sid, sid)]
         else b.Releasing? && aside == []
       case Confirm(_, _, sid) => aside == [] && ((b.Relaying? && b.sid == sid) || b.Releasing?)
       case Relaying(_, _, sid) => aside == [] && (((b.Relaying? || b.RelayDown?) && b.sid == sid) || b.Releasing?)
       case RelayDown(_, d, sid, m) =>
         if b.Relaying? then b.sid == sid && aside == [m] else b.Releasing? && aside == []
       case Releasing(_) => aside == [] && (b.Notify? || b.Closing?)
       case Notify(d, sid, code) =>
         b.Closing? && aside == if Reaches(s, d) then [Msg(PresenterClosed, sid, code)] else []
       case Closing => b.Done? && aside == []
       case Done => false
       case _ => aside == [] && (b.Entering? || b.InAuth? || AskingPc(b) || b.Granted? || b.Closing?)
  }

  lemma GreetingKeepsAsides(
      s: System, t: System, a: PC, b: PC, aside: seq<Msg>, relay: seq<Msg>, relayed: seq<Msg>, asides: seq<Msg>)
    requires AsideScript(s, a, relayed, asides) && Asided(s, a, b, aside, relay)
    requires forall d :: Reaches(t, d) ==> Reaches(s, d)
    requires !SessionPc(a)
    ensures AsideScript(t, b, relayed + relay, asides + aside)
  {
    assert relayed + [] == relayed && asides + [] == asides && [] + aside == aside;
  }

  lemma SessionKeepsAsides(
      s: System, t: System, a: PC, b: PC, aside: seq<Msg>, relay: seq<Msg>, relayed: seq<Msg>, asides: seq<Msg>)
    requires AsideScript(s, a, relayed, asides) && Asided(s, a, b, aside, relay)
    requires forall d :: Reaches(t, d) ==> Reaches(s, d)
    requires SessionPc(a)
    ensures AsideScript(t, b, relayed + relay, asides + aside)
  {
    assert relayed + [] == relayed && asides + [] == asides && [] + aside == aside;
    match a
    case Announce(_, d, sid) =>
      if b.Confirm? {
        var code :| asides == Refresh(code);
        assert asides + aside == Opening(code, sid);
      }
    case Confirm(_, _, sid) =>
      var code :| asides == Opening(code, sid);
      assert asides == Opening(code, sid) + [];
    case Relaying(_, _, _) =>
    case RelayDown(_, _, sid, _) =>
      var code :| asides == Opening(code, sid) + relayed;
      assert asides + aside == Opening(code, sid) + (relayed + aside);
  }

  /** A step of c's handler on its program counter and what it writes to its display. */
  ghost predicate StepAsides(s: System, e: Event, pc: PC)
    requires PointersOk(s) && Enabled(s, e) && e.Run?
  {
    Asided(s, s.conns[e.c].pc, pc, AsideAt(s, e, e.c), MessagesOf(RelayAt(s, e, e.c)))
  }

  lemma EntryAsides(s: System, e: Event)
    requires PointersOk(s) && Enabled(s, e) && e.Run? && EntryPc(s.conns[e.c].pc)
    requires s.conns[e.c].kind.PresenterKind? && KindOk(s, e.c)
    ensures StepAsides(s, e, EntryStep(s, e.c, e.input).conns[e.c].pc)
  {
    hide PointersOk;
  }

  lemma AskingAsides(s: System, e: Event)
    requires PointersOk(s) && Enabled(s, e) && e.Run? && AskingPc(s.conns[e.c].pc)
    ensures StepAsides(s, e, PresenterStep(s, e.c, e.input).conns[e.c].pc)
  {
    hide PointersOk, Authorize;
  }

  lemma GreetingAsides(s: System, e: Event)
    requires PointersOk(s) && Enabled(s, e) && e.Run? && GreetingPc(s.conns[e.c].pc) && KindOk(s, e.c)
    ensures StepAsides(s, e, PresenterStep(s, e.c, e.input).conns[e.c].pc)
  {
    hide PointersOk;
  }

  lemma SessionAsides(s: System, e: Event)
    requires PointersOk(s) && Enabled(s, e) && e.Run? && SessionPc(s.conns[e.c].pc) && KindOk(s, e.c)
    ensures StepAsides(s, e, PresenterStep(s, e.c, e.input).conns[e.c].pc)
  {
    hide PointersOk;
  }

  lemma LeavingAsides(s: System, e: Event)
    requires PointersOk(s) && Enabled(s, e) && e.Run? && KindOk(s, e.c)
    requires s.conns[e.c].pc.Releasing? || s.conns[e.c].pc.Notify?
    ensures StepAsides(s, e, PresenterStep(s, e.c, e.input).conns[e.c].pc)
  {
    hide PointersOk, Release;
  }

  lemma ActorAsides(s: System, e: Event, t: System)
    requires Step(s, e, t) && e.Run? && KindOk(s, e.c) && s.conns[e.c].kind.PresenterKind? && e.c in t.conns
    ensures StepAsides(s, e, t.conns[e.c].pc)
  {
    hide PointersOk, EntryStep, DisplayStep, PresenterStep, StepAsides;
    var pc := s.conns[e.c].pc;
    if EntryPc(pc) {
      EntryAsides(s, e);
    } else if AskingPc(pc) {
      AskingAsides(s, e);
    } else if GreetingPc(pc) {
      GreetingAsides(s, e);
    } else if SessionPc(pc) {
      SessionAsides(s, e);
    } else {
      LeavingAsides(s, e);
    }
  }

  /** Whoever can be written to after a step could be before it. */
  lemma ReachIsLost(s: System, e: Event, t: System)
    requires Step(s, e, t) && e.Run?
    ensures forall d :: Reaches(t, d) ==> Reaches(s, d)
  {
    hide Next, WritesOf;
    HandlersMoveForward(s, e, t, e.c);
    forall d | Reaches(t, d) ensures Reaches(s, d) {
      StepAppends(s, e, t, d);
    }
  }

  lemma OtherStepsKeepScript(s: System, e: Event, t: System, c: Conn, relayed: seq<Msg>, asides: seq<Msg>)
    requires Step(s, e, t) && c in s.conns && KindOk(s, c) && !(e.Run? && e.c == c)
    requires AsideScript(s, s.conns[c].pc, relayed, asides)
    ensures c in t.conns && AsideScript(t, t.conns[c].pc, relayed, asides)
    ensures AsideAt(s, e, c) == [] && RelayAt(s, e, c) == []
  {
    hide Next, WritesOf;
    HandlersMoveForward(s, e, t, c);
    if Addressee(s.conns[c].pc).Some? {
      StepAppends(s, e, t, Addressee(s.conns[c].pc).value);
    }
  }

  lemma MessagesAppend(a: seq<(Conn, Msg)>, b: seq<(Conn, Msg)>)
    ensures MessagesOf(a + b) == MessagesOf(a) + MessagesOf(b)
  {
  }

  lemma NewcomerAsides(s: System, e: Event, t: System, c: Conn)
    requires Step(s, e, t) && c in t.conns && c !in s.conns
    ensures AsideScript(t, t.conns[c].pc, [], []) && AsideAt(s, e, c) == [] && RelayAt(s, e, c) == []
  {
    if e.Run? {
      hide Next;
      HandlersMoveForward(s, e, t, e.c);
    }
  }

  lemma {:induction false} NoAsidesEarly(states: seq<System>, events: seq<Event>, n: nat, c: Conn)
    requires IsRun(states, events) && n <= |events| && c !in states[n].conns
    ensures AsidesOf(states, events, n, c) == [] && Relays(states, events, n, c) == []
  {
    if n > 0 {
      hide Next, WritesOf;
      StepAt(states, events, n - 1);
      if c in states[n - 1].conns {
        HandlersMoveForward(states[n - 1], events[n - 1], states[n], c);
      } else if events[n - 1].Run? {
        assert events[n - 1].c != c;
      }
      NoAsidesEarly(states, events, n - 1, c);
    }
  }

  lemma AsidesStep(s: System, e: Event, t: System, c: Conn, relayed: seq<Msg>, asides: seq<Msg>)
    requires Step(s, e, t) && c in s.conns && KindOk(s, c) && s.conns[c].kind.PresenterKind?
    requires AsideScript(s, s.conns[c].pc, relayed, asides)
    ensures c in t.conns
    ensures AsideScript(t, t.conns[c].pc, relayed + MessagesOf(RelayAt(s, e, c)), asides + AsideAt(s, e, c))
  {
    hide Next, AsideScript, AsideAt, RelayAt, Asided;
    if e.Run? && e.c == c {
      HandlersMoveForward(s, e, t, c);
      ActorAsides(s, e, t);
      ReachIsLost(s, e, t);
      var a, b := s.conns[c].pc, t.conns[c].pc;
      if SessionPc(a) {
        SessionKeepsAsides(s, t, a, b, AsideAt(s, e, c), MessagesOf(RelayAt(s, e, c)), relayed, asides);
      } else {
        GreetingKeepsAsides(s, t, a, b, AsideAt(s, e, c), MessagesOf(RelayAt(s, e, c)), relayed, asides);
      }
    } else {
      OtherStepsKeepScript(s, e, t, c, relayed, asides);
      assert MessagesOf([]) == [];
      assert relayed + [] == relayed && asides + [] == asides;
    }
  }

  /** What a presenter's handler writes to its display keeps to the script at every point of
      every run: one refreshCode after the grant, one newSession, exactly what the relay
      loop relays, and one presenterClosed at the end, as far as the display is there. */
  lemma {:induction false} AsidesFollowScript(states: seq<System>, events: seq<Event>, n: nat, c: Conn)
    requires IsRun(states, events) && n <= |events| && c in states[n].conns && states[n].conns[c].kind.PresenterKind?
    ensures AsideScript(states[n], states[n].conns[c].pc, MessagesOf(Relays(states, events, n, c)),
                        AsidesOf(states, events, n, c))
  {
    hide Next, Inv, AsideScript, AsideAt, RelayAt, WritesOf, KindOk;
    if n == 0 {
      assert false;
    } else {
      var s, e, t := states[n - 1], events[n - 1], states[n];
      StepOfRun(states, events, n - 1);
      if c in s.conns {
        StepAppends(s, e, t, c);
        AsidesFollowScript(states, events, n - 1, c);
        RunKeepsKinds(states, events, n - 1);
        AsidesStep(s, e, t, c, MessagesOf(Relays(states, events, n - 1, c)), AsidesOf(states, events, n - 1, c));
        MessagesAppend(Relays(states, events, n - 1, c), RelayAt(s, e, c));
      } else {
        NoAsidesEarly(states, events, n - 1, c);
        NewcomerAsides(s, e, t, c);
        assert MessagesOf(Relays(states, events, n, c)) == [] && AsidesOf(states, events, n, c) == [];
      }
    }
  }

  // ----- what the first and the last message say -----

  /** Step j is the next one of c's handler after step i. */
  ghost predicate NextOwnStep(events: seq<Event>, i: nat, j: nat, c: Conn) {
    && i < j < |events| && events[j].Run? && events[j].c == c
    && (forall k :: i < k < j ==> !(events[k].Run? && events[k].c == c))
  }

  /** A handler stays where it is between its own steps. */
  lemma {:induction false} Unmoved(states: seq<System>, events: seq<Event>, i: nat, j: nat, c: Conn)
    requires IsRun(states, events) && i < j <= |events| && c in states[i + 1].conns
    requires forall k :: i < k < j ==> !(events[k].Run? && events[k].c == c)
    ensures c in states[j].conns && states[j].conns[c].pc == states[i + 1].conns[c].pc
    decreases j - i
  {
    if j > i + 1 {
      hide Next;
      Unmoved(states, events, i, j - 1, c);
      StepAt(states, events, j - 1);
      HandlersMoveForward(states[j - 1], events[j - 1], states[j], c);
    }
  }

  /** The step of c's handler adds this one message to the log of d, if d is open. */
  ghost predicate Adds(s: System, t: System, d: Conn, m: Msg) {
    Reaches(s, d) ==> d in t.conns && t.conns[d].sent == s.conns[d].sent + [m]
  }

  lemma GrantedWrites(s: System, e: Event, t: System)
    requires Step(s, e, t) && e.Run? && (s.conns[e.c].pc.Granted? || s.conns[e.c].pc.Notify?)
    ensures
      var pc := s.conns[e.c].pc;
      if pc.Granted? then Adds(s, t, pc.display, Msg(RefreshCode, "", pc.code))
      else Adds(s, t, pc.display, Msg(PresenterClosed, pc.sid, pc.code))
  {
    hide Next, PointersOk;
    StepAppends(s, e, t, s.conns[e.c].pc.display);
  }

  /** After a grant the first thing that c's handler does is to tell the display that was
      c's room's at the grant the code drawn then, and to tell it to hide the old one. */
  lemma RefreshTellsNewCode(states: seq<System>, events: seq<Event>, i: nat, j: nat, c: Conn, r: nat)
    requires IsRun(states, events) && NextOwnStep(events, i, j, c)
    requires Step(states[i], events[i], states[i + 1]) && Grants(states[i], events[i], c, r)
    ensures Adds(states[j], states[j + 1], states[i].store.rooms[r].display.value,
                 Msg(RefreshCode, "", events[i].input.text))
    ensures states[i + 1].store.rooms[r].code == events[i].input.text
  {
    hide Next;
    GrantSets(states[i], events[i], states[i + 1], c, r);
    Unmoved(states, events, i, j, c);
    StepAt(states, events, j);
    GrantedWrites(states[j], events[j], states[j + 1]);
  }

  /** After giving its slot back the next thing that c's handler does is to tell the display
      of its room the ID of the session that ended, or none if none was open, and the code
      that the room had when the slot became free. */
  lemma FarewellTellsCode(states: seq<System>, events: seq<Event>, i: nat, j: nat, c: Conn)
    requires IsRun(states, events) && NextOwnStep(events, i, j, c)
    requires events[i].Run? && events[i].c == c && c in states[i].conns && states[i].conns[c].pc.Releasing?
    requires states[i].conns[c].pc.r < |states[i].store.rooms|
    requires states[i].store.rooms[states[i].conns[c].pc.r].presenter == Some(c)
    ensures
      var room := states[i].store.rooms[states[i].conns[c].pc.r];
      && room.display.Some?
      && exists sid :: (if room.sessions == map[] then sid == "" else sid in room.sessions)
           && Adds(states[j], states[j + 1], room.display.value, Msg(PresenterClosed, sid, room.code))
  {
    hide Next, PointersOk, Adds, Inv;
    StepOfRun(states, events, i);
    ReleaseNotifiesDisplay(states[i], events[i], states[i + 1]);
    HandlersMoveForward(states[i], events[i], states[i + 1], c);
    Unmoved(states, events, i, j, c);
    StepAt(states, events, j);
    GrantedWrites(states[j], events[j], states[j + 1]);
  }
}
