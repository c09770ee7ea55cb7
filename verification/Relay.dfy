/** What a presenter's relay loop delivers, over a whole run. */
module Relay {
  import opened Wrappers
  import opened Rooms
  import opened Signalling
  import opened SlotInvariant
  import opened RoomActions
  import opened SignallingTheorems
  import opened Reservations

  // ----- what is read and what is relayed -----

  /** The message c's relay loop taken in this step, if any. */
  function ReadAt(s: System, e: Event, c: Conn): seq<Msg> {
    if e.Run? && e.c == c && c in s.conns && s.conns[c].pc.Relaying? && e.input.ok then [e.input.msg] else []
  }

  /** The message c's relay loop writes in this step, and to whom. */
  function RelayAt(s: System, e: Event, c: Conn): seq<(Conn, Msg)> {
    if e.Run? && e.c == c && c in s.conns && s.conns[c].pc.RelayDown? && Reaches(s, s.conns[c].pc.display)
    then [(s.conns[c].pc.display, s.conns[c].pc.m)] else []
  }

  function Reads(states: seq<System>, events: seq<Event>, n: nat, c: Conn): seq<Msg>
    requires n <= |events| <= |states|
  {
    if n == 0 then [] else Reads(states, events, n - 1, c) + ReadAt(states[n - 1], events[n - 1], c)
  }

  function Relays(states: seq<System>, events: seq<Event>, n: nat, c: Conn): seq<(Conn, Msg)>
    requires n <= |events| <= |states|
  {
    if n == 0 then [] else Relays(states, events, n - 1, c) + RelayAt(states[n - 1], events[n - 1], c)
  }

  /** The messages of a session that the loop accepts, in order. */
  function Accepted(ms: seq<Msg>, sid: string): seq<Msg> {
    if ms == [] then []
    else
      var m := ms[|ms| - 1];
      Accepted(ms[..|ms| - 1], sid) + if m.session == sid && RelayedDown(m) then [m] else []
  }

  function To(d: Conn, ms: seq<Msg>): seq<(Conn, Msg)> {
    seq(|ms|, i requires 0 <= i < |ms| => (d, ms[i]))
  }

  lemma AcceptedStep(ms: seq<Msg>, m: Msg, sid: string)
    ensures Accepted(ms + [m], sid) == Accepted(ms, sid) + if m.session == sid && RelayedDown(m) then [m] else []
  {
    assert (ms + [m])[..|ms|] == ms;
  }

  // ----- the loop invariant, step by step -----

  predicate Left(pc: PC) {
    pc.Releasing? || pc.Notify? || pc.Closing? || pc.Done?
  }

  /** Everything accepted for some session went to d in order, except perhaps the
      last message, whose write failed and ended the loop. */
  ghost predicate Delivered(taken: seq<Msg>, relays: seq<(Conn, Msg)>, d: Conn, sid: string) {
    && relays <= To(d, Accepted(taken, sid))
    && |Accepted(taken, sid)| <= |relays| + 1
  }

  ghost predicate RelayOk(pc: PC, taken: seq<Msg>, relays: seq<(Conn, Msg)>, d: Conn) {
    match pc
    case Relaying(_, _, sid) => relays == To(d, Accepted(taken, sid))
    case RelayDown(_, _, sid, m) => relays + [(d, m)] == To(d, Accepted(taken, sid))
    case _ =>
      if Left(pc) then exists sid :: Delivered(taken, relays, d, sid)
      else taken == [] && relays == []
  }

  /** A handler enters the relay loop only by confirming its session, and once it
      has left it does not come back. */
  lemma LoopEntry(s: System, e: Event, t: System, c: Conn)
    requires Step(s, e, t) && c in s.conns
    ensures c in t.conns
    ensures Left(s.conns[c].pc) ==> Left(t.conns[c].pc)
    ensures t.conns[c].pc.Relaying? || t.conns[c].pc.RelayDown? ==>
      s.conns[c].pc.Confirm? || s.conns[c].pc.Relaying? || s.conns[c].pc.RelayDown?
  {
    HandlersMoveForward(s, e, t, c);
    if e.Run? && e.c == c {
      var pc := s.conns[c].pc;
      if EntryPc(pc) {
      } else if DisplayPc(pc) {
        DisplayStaysOut(s, c, e.input);
      } else {
        PresenterEntersByConfirm(s, c, e.input);
      }
    }
  }

  lemma DisplayStaysOut(s: System, c: Conn, input: Input)
    requires PointersOk(s) && c in s.conns && DisplayPc(s.conns[c].pc)
    ensures var b := DisplayStep(s, c, input).conns[c].pc; !b.Relaying? && !b.RelayDown?
  {
  }

  lemma PresenterEntersByConfirm(s: System, c: Conn, input: Input)
    requires PointersOk(s) && c in s.conns && !EntryPc(s.conns[c].pc) && !DisplayPc(s.conns[c].pc)
    ensures
      var a, b := s.conns[c].pc, PresenterStep(s, c, input).conns[c].pc;
      && (a.Releasing? || a.Notify? ==> Left(b))
      && (b.Relaying? || b.RelayDown? ==> a.Confirm? || a.Relaying? || a.RelayDown?)
  {
    hide PointersOk, Authorize, Start, Release;
  }

  lemma RelayStep(s: System, e: Event, t: System, c: Conn, taken: seq<Msg>, relays: seq<(Conn, Msg)>, d: Conn)
    requires Step(s, e, t) && c in s.conns && RelayOk(s.conns[c].pc, taken, relays, d)
    requires Kept(s.conns[c].pc).Some? ==> Kept(s.conns[c].pc) == Some(d)
    ensures c in t.conns && RelayOk(t.conns[c].pc, taken + ReadAt(s, e, c), relays + RelayAt(s, e, c), d)
  {
    LoopEntry(s, e, t, c);
    HandlersMoveForward(s, e, t, c);
    var pc := s.conns[c].pc;
    if !(e.Run? && e.c == c) {
      assert taken + [] == taken && relays + [] == relays;
    } else if pc.Relaying? {
      LoopReads(s, e, t, c, taken, relays, d);
    } else if pc.RelayDown? {
      LoopWrites(s, e, t, c, taken, relays, d);
    } else {
      assert taken + [] == taken && relays + [] == relays;
      LoopOutside(s, e, t, c, taken, relays, d);
    }
  }

  lemma LoopOutside(s: System, e: Event, t: System, c: Conn, taken: seq<Msg>, relays: seq<(Conn, Msg)>, d: Conn)
    requires Step(s, e, t) && e.Run? && e.c == c && RelayOk(s.conns[c].pc, taken, relays, d)
    requires !s.conns[c].pc.Relaying? && !s.conns[c].pc.RelayDown?
    ensures c in t.conns && RelayOk(t.conns[c].pc, taken, relays, d)
  {
    hide Next;
    LoopEntry(s, e, t, c);
    var a, b := s.conns[c].pc, t.conns[c].pc;
    if b.RelayDown? {
      if a.Confirm? {
        ConfirmEntersEmpty(s, e, t, c);
      }
    } else {
      OutsideStaysOk(a, b, taken, relays, d);
    }
  }

  lemma OutsideStaysOk(a: PC, b: PC, taken: seq<Msg>, relays: seq<(Conn, Msg)>, d: Conn)
    requires RelayOk(a, taken, relays, d) && !a.Relaying? && !a.RelayDown? && !b.RelayDown?
    requires (Left(a) ==> Left(b)) && (b.Relaying? ==> a.Confirm?)
    ensures RelayOk(b, taken, relays, d)
  {
    if !Left(a) {
      assert To(d, Accepted([], if b.Relaying? then b.sid else "")) == [];
      assert Delivered([], [], d, "");
    }
  }

  lemma ConfirmEntersEmpty(s: System, e: Event, t: System, c: Conn)
    requires Step(s, e, t) && e.Run? && e.c == c && s.conns[c].pc.Confirm?
    ensures !t.conns[c].pc.RelayDown?
  {
  }

  /** Where the relay loop goes with a message, if it gets one. */
  function AfterRead(r: nat, d: Conn, sid: string, m: Option<Msg>): PC {
    if m.None? then Releasing(r)
    else if m.value.session == sid && RelayedDown(m.value) then RelayDown(r, d, sid, m.value)
    else Relaying(r, d, sid)
  }

  lemma LoopGoesOn(s: System, e: Event, t: System, c: Conn)
    requires Step(s, e, t) && e.Run? && e.c == c && s.conns[c].pc.Relaying?
    ensures
      var pc := s.conns[c].pc;
      t.conns[c].pc == AfterRead(pc.r, pc.display, pc.sid, if e.input.ok then Some(e.input.msg) else None)
  {
  }

  lemma ToMore(d: Conn, ms: seq<Msg>, m: Msg)
    ensures To(d, ms + [m]) == To(d, ms) + [(d, m)]
  {
  }

  lemma LoopEnds(r: nat, d: Conn, sid: string, taken: seq<Msg>, relays: seq<(Conn, Msg)>)
    requires relays == To(d, Accepted(taken, sid))
    ensures RelayOk(Releasing(r), taken, relays, d)
  {
    assert Delivered(taken, relays, d, sid);
  }

  lemma LoopTakes(r: nat, d: Conn, sid: string, m: Msg, taken: seq<Msg>, relays: seq<(Conn, Msg)>)
    requires relays == To(d, Accepted(taken, sid))
    ensures RelayOk(AfterRead(r, d, sid, Some(m)), taken + [m], relays, d)
  {
    AcceptedStep(taken, m, sid);
    ToMore(d, Accepted(taken, sid), m);
    assert Accepted(taken, sid) + [] == Accepted(taken, sid);
  }

  lemma LoopReads(s: System, e: Event, t: System, c: Conn, taken: seq<Msg>, relays: seq<(Conn, Msg)>, d: Conn)
    requires Step(s, e, t) && e.Run? && e.c == c && s.conns[c].pc.Relaying? && s.conns[c].pc.display == d
    requires RelayOk(s.conns[c].pc, taken, relays, d)
    ensures RelayOk(t.conns[c].pc, taken + ReadAt(s, e, c), relays + RelayAt(s, e, c), d)
  {
    hide Next, To, Accepted;
    var pc := s.conns[c].pc;
    assert relays + [] == relays;
    LoopGoesOn(s, e, t, c);
    if e.input.ok {
      LoopTakes(pc.r, d, pc.sid, e.input.msg, taken, relays);
    } else {
      assert taken + [] == taken;
      LoopEnds(pc.r, d, pc.sid, taken, relays);
    }
  }

  lemma LoopWrote(s: System, e: Event, t: System, c: Conn)
    requires Step(s, e, t) && e.Run? && e.c == c && s.conns[c].pc.RelayDown?
    ensures
      var pc := s.conns[c].pc;
      t.conns[c].pc == if Reaches(s, pc.display) then Relaying(pc.r, pc.display, pc.sid) else Releasing(pc.r)
  {
    hide EntryStep, DisplayStep, PointersOk;
  }

  lemma LoopWrites(s: System, e: Event, t: System, c: Conn, taken: seq<Msg>, relays: seq<(Conn, Msg)>, d: Conn)
    requires Step(s, e, t) && e.Run? && e.c == c && s.conns[c].pc.RelayDown?
    requires RelayOk(s.conns[c].pc, taken, relays, d) && s.conns[c].pc.display == d
    ensures RelayOk(t.conns[c].pc, taken + ReadAt(s, e, c), relays + RelayAt(s, e, c), d)
  {
    hide Next, To, Accepted;
    var sid := s.conns[c].pc.sid;
    LoopWrote(s, e, t, c);
    assert taken + [] == taken;
    if !Reaches(s, d) {
      assert relays + [] == relays;
      WriteWasLast(taken, relays, d, sid, s.conns[c].pc.m);
    }
  }

  lemma WriteWasLast(taken: seq<Msg>, relays: seq<(Conn, Msg)>, d: Conn, sid: string, m: Msg)
    requires relays + [(d, m)] == To(d, Accepted(taken, sid))
    ensures Delivered(taken, relays, d, sid)
  {
    hide Accepted;
  }

  // ----- whole runs -----

  lemma {:induction false} NothingBeforeGrant(states: seq<System>, events: seq<Event>, n: nat, c: Conn)
    requires IsRun(states, events) && n <= |events|
    requires c in states[n].conns ==> Early(states[n].conns[c].pc)
    ensures Reads(states, events, n, c) == [] && Relays(states, events, n, c) == []
  {
    hide Next;
    if n > 0 {
      StepAt(states, events, n - 1);
      if c in states[n - 1].conns {
        HandlersMoveForward(states[n - 1], events[n - 1], states[n - 1 + 1], c);
      }
      NothingBeforeGrant(states, events, n - 1, c);
    }
  }

  ghost predicate RelayedSoFar(states: seq<System>, events: seq<Event>, n: nat, c: Conn, d: Conn)
    requires IsRun(states, events) && n <= |events|
  {
    && c in states[n].conns
    && RelayOk(states[n].conns[c].pc, Reads(states, events, n, c), Relays(states, events, n, c), d)
  }

  lemma RelayRunStep(states: seq<System>, events: seq<Event>, n: nat, c: Conn, d: Conn)
    requires IsRun(states, events) && n < |events| && RelayedSoFar(states, events, n, c, d)
    requires Kept(states[n].conns[c].pc).Some? ==> Kept(states[n].conns[c].pc) == Some(d)
    ensures RelayedSoFar(states, events, n + 1, c, d)
  {
    StepAt(states, events, n);
    RelayStep(states[n], events[n], states[n + 1], c, Reads(states, events, n, c), Relays(states, events, n, c), d);
  }

  lemma RelayStart(states: seq<System>, events: seq<Event>, i: nat, c: Conn, r: nat)
    requires IsRun(states, events) && i < |events|
    requires Step(states[i], events[i], states[i + 1]) && Grants(states[i], events[i], c, r)
    ensures RelayedSoFar(states, events, i + 1, c, states[i].store.rooms[r].display.value)
    ensures c in states[i + 1].conns && !Early(states[i + 1].conns[c].pc)
    ensures Kept(states[i + 1].conns[c].pc) == Some(states[i].store.rooms[r].display.value)
  {
    hide Next;
    GrantSets(states[i], events[i], states[i + 1], c, r);
    NothingBeforeGrant(states, events, i, c);
  }

  lemma {:induction false} RelayContinues(
      states: seq<System>, events: seq<Event>, i: nat, n: nat, c: Conn, d: Conn)
    requires IsRun(states, events) && i <= n <= |events| && RelayedSoFar(states, events, i, c, d)
    requires !Early(states[i].conns[c].pc) && Kept(states[i].conns[c].pc) == Some(d)
    ensures RelayedSoFar(states, events, n, c, d)
    decreases n
  {
    hide RelayOk;
    if n > i {
      RelayContinues(states, events, i, n - 1, c, d);
      HandlerOverTime(states, events, i, n - 1, c);
      RelayRunStep(states, events, n - 1, c, d);
    }
  }

  /** Throughout the run, what c's loop has relayed is exactly what it accepted of
      what it read, in order, all of it to the display c was authorized with; only a
      message whose write is pending or failed is missing, at the end. */
  lemma RelayIsOrderedFilter(states: seq<System>, events: seq<Event>, i: nat, n: nat, c: Conn, r: nat)
    requires IsRun(states, events) && i < n <= |events|
    requires Step(states[i], events[i], states[i + 1]) && Grants(states[i], events[i], c, r)
    ensures RelayedSoFar(states, events, n, c, states[i].store.rooms[r].display.value)
  {
    hide Next;
    var d := states[i].store.rooms[r].display.value;
    RelayStart(states, events, i, c, r);
    RelayContinues(states, events, i + 1, n, c, d);
  }

  /** In plain terms: at any later point, the relayed messages are a prefix of the
      accepted messages of one session, each addressed to that one display. */
  lemma RelayedIsPrefixOfAccepted(
      states: seq<System>, events: seq<Event>, i: nat, n: nat, c: Conn, r: nat)
    requires IsRun(states, events) && i < n <= |events|
    requires Step(states[i], events[i], states[i + 1]) && Grants(states[i], events[i], c, r)
    ensures exists sid :: Delivered(Reads(states, events, n, c), Relays(states, events, n, c),
                                    states[i].store.rooms[r].display.value, sid)
  {
    hide Next, RelayOk, Delivered;
    RelayIsOrderedFilter(states, events, i, n, c, r);
    OkIsDelivered(states[n].conns[c].pc, Reads(states, events, n, c), Relays(states, events, n, c),
                  states[i].store.rooms[r].display.value);
  }

  lemma OkIsDelivered(pc: PC, taken: seq<Msg>, relays: seq<(Conn, Msg)>, d: Conn)
    requires RelayOk(pc, taken, relays, d)
    ensures exists sid :: Delivered(taken, relays, d, sid)
  {
    hide Accepted;
    match pc
    case Relaying(_, _, sid) => assert Delivered(taken, relays, d, sid);
    case RelayDown(_, _, sid, m) => WriteWasLast(taken, relays, d, sid, m);
    case _ =>
      if !Left(pc) {
        NothingIsDelivered(d);
      }
  }

  lemma NothingIsDelivered(d: Conn)
    ensures Delivered([], [], d, "")
  {
  }

  lemma LeftIsSilent(s: System, e: Event, c: Conn)
    requires c in s.conns && Left(s.conns[c].pc)
    ensures ReadAt(s, e, c) == [] && RelayAt(s, e, c) == []
  {
  }

  lemma LeftStep(states: seq<System>, events: seq<Event>, n: nat, c: Conn)
    requires IsRun(states, events) && n < |events|
    requires c in states[n].conns && Left(states[n].conns[c].pc)
    ensures c in states[n + 1].conns && Left(states[n + 1].conns[c].pc)
    ensures Reads(states, events, n + 1, c) == Reads(states, events, n, c)
    ensures Relays(states, events, n + 1, c) == Relays(states, events, n, c)
  {
    StepAt(states, events, n);
    LoopEntry(states[n], events[n], states[n + 1], c);
    LeftIsSilent(states[n], events[n], c);
  }

  /** Nothing is read or relayed once the handler is on its way to release. */
  lemma {:induction false} NothingAfterRelease(states: seq<System>, events: seq<Event>, i: nat, n: nat, c: Conn)
    requires IsRun(states, events) && i <= n <= |events|
    requires c in states[i].conns && Left(states[i].conns[c].pc)
    ensures c in states[n].conns && Left(states[n].conns[c].pc)
    ensures Reads(states, events, n, c) == Reads(states, events, i, c)
    ensures Relays(states, events, n, c) == Relays(states, events, i, c)
    decreases n - i
  {
    if i < n {
      NothingAfterRelease(states, events, i, n - 1, c);
      LeftStep(states, events, n - 1, c);
    }
  }

  /** What a display's loop does with a message that it looks a session up for. */
  lemma ServingLooksUp(s: System, c: Conn, input: Input)
    requires PointersOk(s) && c in s.conns && s.conns[c].pc.Serving?
    requires DisplayStep(s, c, input).conns[c].pc.RelayUp?
    ensures
      var r, pc := s.conns[c].pc.r, DisplayStep(s, c, input).conns[c].pc;
      && r == pc.r < |s.store.rooms| && pc.m == input.msg && RelayedUp(pc.m)
      && pc.m.session in s.store.rooms[r].sessions && pc.caller == s.store.rooms[r].sessions[pc.m.session].caller
  {
  }

  /** A display's message is addressed to the connection that is the presenter of
      that same Room object when the session is looked up, and to no other. */
  lemma RelayUpTargetsPresenter(states: seq<System>, events: seq<Event>, i: nat, c: Conn)
    requires IsRun(states, events) && i < |events|
    requires c in states[i].conns && states[i].conns[c].pc.Serving?
    requires c in states[i + 1].conns && states[i + 1].conns[c].pc.RelayUp?
    ensures
      var pc := states[i + 1].conns[c].pc;
      && states[i].conns[c].pc.r == pc.r < |states[i].store.rooms|
      && states[i].store.rooms[pc.r].presenter == Some(pc.caller)
      && events[i].Run? && pc.m == events[i].input.msg && RelayedUp(pc.m)
      && pc.m.session in states[i].store.rooms[pc.r].sessions
  {
    hide DisplayStep, PresenterStep, EntryStep;
    var s := states[i];
    StepOfRun(states, events, i);
    HandlersMoveForward(s, events[i], states[i + 1], c);
    ServingLooksUp(s, c, events[i].input);
    assert RoomOk(s.store, s.conns[c].pc.r);
  }
}
