/** What a display receives from its presenters, over a whole run: the relay loops of
    Relay.dfy against the display's own log. */
module Received {
  import opened Wrappers
  import opened Rooms
  import opened Signalling
  import opened RoomActions
  import opened SignallingTheorems
  import opened Reservations
  import opened Writes
  import opened Screens
  import opened Relay

  /** The messages of a log that a presenter's loop may have written. */
  function DownLog(log: seq<Msg>): seq<Msg> {
    Only(log, RelayedDown)
  }

  lemma DownLogQuiet(a: seq<Msg>, b: seq<Msg>)
    requires QuietTail(a, b)
    ensures DownLog(b) == DownLog(a)
  {
    OnlyAppend(a, b[|a|..], RelayedDown);
    OnlyNone(b[|a|..], RelayedDown);
    assert b == a + b[|a|..];
  }

  /** What this step relays to d, and for which presenter. */
  function ArrivalAt(s: System, e: Event, d: Conn): seq<(Conn, Msg)> {
    if e.Run? && e.c in s.conns && s.conns[e.c].pc.RelayDown? && s.conns[e.c].pc.display == d && Reaches(s, d)
    then [(e.c, s.conns[e.c].pc.m)] else []
  }

  /** Everything relayed to d in the first n steps, in order, with its presenter. */
  function Arrivals(states: seq<System>, events: seq<Event>, n: nat, d: Conn): seq<(Conn, Msg)>
    requires n <= |events| <= |states|
  {
    if n == 0 then [] else Arrivals(states, events, n - 1, d) + ArrivalAt(states[n - 1], events[n - 1], d)
  }

  function MessagesOf(arrivals: seq<(Conn, Msg)>): seq<Msg> {
    seq(|arrivals|, i requires 0 <= i < |arrivals| => arrivals[i].1)
  }

  /** The messages among them that one presenter's loop wrote. */
  function From(arrivals: seq<(Conn, Msg)>, c: Conn): seq<Msg> {
    if arrivals == [] then []
    else
      var last := arrivals[|arrivals| - 1];
      From(arrivals[..|arrivals| - 1], c) + if last.0 == c then [last.1] else []
  }

  lemma FromMore(arrivals: seq<(Conn, Msg)>, x: (Conn, Msg), c: Conn)
    ensures From(arrivals + [x], c) == From(arrivals, c) + if x.0 == c then [x.1] else []
  {
    assert (arrivals + [x])[..|arrivals|] == arrivals;
  }

  /** No handler is about to relay a message of a type it does not relay. */
  ghost predicate AllRelayPlain(s: System) {
    forall c :: c in s.conns ==> RelaysPlain(s.conns[c].pc)
  }

  lemma DisplayRelaysPlain(s: System, c: Conn, input: Input)
    requires PointersOk(s) && c in s.conns && DisplayPc(s.conns[c].pc)
    ensures var b := DisplayStep(s, c, input).conns[c].pc; RelaysPlain(b)
  {
    hide PointersOk, SetDisplay, RemoveDisplay;
  }

  lemma PresenterRelaysPlain(s: System, c: Conn, input: Input)
    requires PointersOk(s) && c in s.conns && RelaysPlain(s.conns[c].pc)
    ensures var b := PresenterStep(s, c, input).conns[c].pc; RelaysPlain(b)
  {
    hide PointersOk;
    if s.conns[c].pc.Relaying? {
      LoopRelaysPlain(s, c, input);
    } else {
      OthersDoNotRelay(s, c, input);
    }
  }

  lemma LoopRelaysPlain(s: System, c: Conn, input: Input)
    requires PointersOk(s) && c in s.conns && s.conns[c].pc.Relaying?
    ensures var b := PresenterStep(s, c, input).conns[c].pc; RelaysPlain(b)
  {
    hide PointersOk;
  }

  lemma OthersDoNotRelay(s: System, c: Conn, input: Input)
    requires PointersOk(s) && c in s.conns && !s.conns[c].pc.Relaying?
    ensures
      var a, b := s.conns[c].pc, PresenterStep(s, c, input).conns[c].pc;
      (!b.RelayDown? && !b.RelayUp?) || b == a
  {
    hide PointersOk, Authorize, Start, Release;
  }

  lemma EntryRelaysPlain(s: System, c: Conn, input: Input)
    requires c in s.conns && EntryPc(s.conns[c].pc)
    ensures RelaysPlain(EntryStep(s, c, input).conns[c].pc)
  {
  }

  lemma StepRelaysPlain(s: System, e: Event, t: System)
    requires Step(s, e, t) && AllRelayPlain(s)
    ensures AllRelayPlain(t)
  {
    hide EntryStep, DisplayStep, PresenterStep, RelaysPlain;
    forall c | c in t.conns ensures RelaysPlain(t.conns[c].pc) {
      if c in s.conns {
        HandlersMoveForward(s, e, t, c);
      }
      if e.Run? && e.c == c {
        if EntryPc(s.conns[c].pc) {
          EntryRelaysPlain(s, c, e.input);
        } else if DisplayPc(s.conns[c].pc) {
          DisplayRelaysPlain(s, c, e.input);
        } else {
          PresenterRelaysPlain(s, c, e.input);
        }
      } else if c !in s.conns {
        NewcomerRelaysPlain(s, e, t, c);
      }
    }
  }

  lemma NewcomerRelaysPlain(s: System, e: Event, t: System, c: Conn)
    requires Step(s, e, t) && c in t.conns && c !in s.conns
    ensures RelaysPlain(t.conns[c].pc) && t.conns[c].sent == []
  {
    if e.Run? {
      hide Next;
      HandlersMoveForward(s, e, t, e.c);
    }
  }

  lemma {:induction false} RunRelaysPlain(states: seq<System>, events: seq<Event>, n: nat)
    requires IsRun(states, events) && n < |states|
    ensures AllRelayPlain(states[n])
  {
    if n > 0 {
      hide Next;
      RunRelaysPlain(states, events, n - 1);
      StepAt(states, events, n - 1);
      StepRelaysPlain(states[n - 1], events[n - 1], states[n]);
    }
  }

  lemma LogArrives(before: seq<Msg>, after: seq<Msg>, w: Option<Msg>)
    requires if w.Some? then after == before + [w.value] else QuietTail(before, after)
    ensures DownLog(after) == DownLog(before) + if w.Some? && RelayedDown(w.value) then [w.value] else []
  {
    if w.Some? {
      OnlyAppend(before, [w.value], RelayedDown);
      OnlyOne(w.value, RelayedDown);
    } else {
      DownLogQuiet(before, after);
      assert DownLog(before) + [] == DownLog(before);
    }
  }

  lemma TextIsNotRelayed(s: System, e: Event)
    requires PointersOk(s) && Enabled(s, e) && TextWrite(s, e).Some?
    ensures !RelayedDown(TextWrite(s, e).value.1)
  {
    hide PointersOk;
  }

  lemma MarkedArrival(s: System, e: Event, d: Conn)
    requires PointersOk(s) && Enabled(s, e) && d in s.conns && (e.Run? ==> RelaysPlain(s.conns[e.c].pc))
    ensures
      var w := MarkedWrite(s, e);
      MessagesOf(ArrivalAt(s, e, d)) ==
        if w.Some? && w.value.0 == d && s.conns[d].isOpen && RelayedDown(w.value.1) then [w.value.1] else []
  {
    hide PointersOk, TextWrite, RelayedDown;
    if TextWrite(s, e).Some? {
      TextIsNotRelayed(s, e);
    }
  }

  /** One step adds to d's log exactly the relayed message that it writes to d. */
  lemma StepArrives(s: System, e: Event, t: System, d: Conn)
    requires Step(s, e, t) && d in s.conns && AllRelayPlain(s)
    ensures d in t.conns
    ensures DownLog(t.conns[d].sent) == DownLog(s.conns[d].sent) + MessagesOf(ArrivalAt(s, e, d))
  {
    hide Next, PointersOk, MarkedWrite, QuietTail, DownLog, ArrivalAt, MessagesOf, RelayedDown;
    StepWrites(s, e, t, d);
    MarkedArrival(s, e, d);
    var w := MarkedWrite(s, e);
    LogArrives(s.conns[d].sent, t.conns[d].sent,
               if w.Some? && w.value.0 == d && s.conns[d].isOpen then Some(w.value.1) else None);
  }

  /** Nothing arrives at a connection that does not exist yet. */
  lemma {:induction false} NothingArrivesEarly(states: seq<System>, events: seq<Event>, n: nat, d: Conn)
    requires IsRun(states, events) && n <= |events| && d !in states[n].conns
    ensures Arrivals(states, events, n, d) == []
  {
    if n > 0 {
      hide Next;
      StepAt(states, events, n - 1);
      if d in states[n - 1].conns {
        HandlersMoveForward(states[n - 1], events[n - 1], states[n], d);
      }
      NothingArrivesEarly(states, events, n - 1, d);
    }
  }

  /** The candidates and offers in a display's log are exactly what presenters' loops
      relayed to it, in order. */
  lemma {:induction false} ReceivedIsRelayed(states: seq<System>, events: seq<Event>, n: nat, d: Conn)
    requires IsRun(states, events) && n <= |events| && d in states[n].conns
    ensures DownLog(states[n].conns[d].sent) == MessagesOf(Arrivals(states, events, n, d))
  {
    if n > 0 {
      hide Next, ArrivalAt, AllRelayPlain;
      var s, e, t := states[n - 1], events[n - 1], states[n];
      StepAt(states, events, n - 1);
      RunRelaysPlain(states, events, n - 1);
      if d in s.conns {
        ReceivedIsRelayed(states, events, n - 1, d);
        StepArrives(s, e, t, d);
      } else {
        NothingArrivesEarly(states, events, n - 1, d);
        NewcomerRelaysPlain(s, e, t, d);
        NobodyReaches(s, e, d);
      }
    }
  }

  lemma NobodyReaches(s: System, e: Event, d: Conn)
    requires d !in s.conns
    ensures ArrivalAt(s, e, d) == []
  {
  }

  lemma SameRelay(s: System, e: Event, c: Conn, d: Conn)
    requires c in s.conns && s.conns[c].pc.RelayDown? ==> s.conns[c].pc.display == d
    ensures RelayAt(s, e, c) == To(d, From(ArrivalAt(s, e, d), c))
  {
    var arrived := ArrivalAt(s, e, d);
    if arrived != [] {
      OneFrom(arrived[0], c);
      assert arrived == [arrived[0]];
    }
  }

  lemma OneFrom(x: (Conn, Msg), c: Conn)
    ensures From([x], c) == if x.0 == c then [x.1] else []
  {
    FromMore([], x, c);
    assert [] + [x] == [x];
  }

  lemma {:induction false} FromAppend(a: seq<(Conn, Msg)>, b: seq<(Conn, Msg)>, c: Conn)
    ensures From(a + b, c) == From(a, c) + From(b, c)
  {
    if b == [] {
      assert a + b == a;
    } else {
      var n := |b| - 1;
      FromAppend(a, b[..n], c);
      assert (a + b)[..|a + b| - 1] == a + b[..n];
    }
  }

  /** c relays to nobody but d in the first n steps. */
  ghost predicate RelaysOnlyTo(states: seq<System>, n: nat, c: Conn, d: Conn)
    requires n <= |states|
  {
    forall k :: 0 <= k < n && c in states[k].conns && states[k].conns[c].pc.RelayDown? ==>
      states[k].conns[c].pc.display == d
  }

  lemma ToAppend(d: Conn, a: seq<Msg>, b: seq<Msg>)
    ensures To(d, a + b) == To(d, a) + To(d, b)
  {
  }

  lemma {:induction false} RelaysArrive(states: seq<System>, events: seq<Event>, n: nat, c: Conn, d: Conn)
    requires IsRun(states, events) && n <= |events| && RelaysOnlyTo(states, n, c, d)
    ensures Relays(states, events, n, c) == To(d, From(Arrivals(states, events, n, d), c))
  {
    if n > 0 {
      hide Next, ArrivalAt, RelayAt, To, From;
      var s, e := states[n - 1], events[n - 1];
      var before := Arrivals(states, events, n - 1, d);
      RelaysArrive(states, events, n - 1, c, d);
      SameRelay(s, e, c, d);
      FromAppend(before, ArrivalAt(s, e, d), c);
      ToAppend(d, From(before, c), From(ArrivalAt(s, e, d), c));
    }
  }

  lemma GrantedRelaysOnlyTo(states: seq<System>, events: seq<Event>, i: nat, n: nat, c: Conn, r: nat)
    requires IsRun(states, events) && i < n <= |events|
    requires Step(states[i], events[i], states[i + 1]) && Grants(states[i], events[i], c, r)
    ensures RelaysOnlyTo(states, n, c, states[i].store.rooms[r].display.value)
  {
    hide Next;
    var d := states[i].store.rooms[r].display.value;
    RelayStart(states, events, i, c, r);
    GrantSets(states[i], events[i], states[i + 1], c, r);
    forall k | 0 <= k < n && c in states[k].conns && states[k].conns[c].pc.RelayDown?
      ensures states[k].conns[c].pc.display == d
    {
      if k > i {
        HandlerOverTime(states, events, i + 1, k, c);
      } else {
        HandlerOverTime(states, events, k, i, c);
      }
    }
  }

  /** Everything that c relays arrives, in order, in the log of the display it was
      authorized with; and that log's candidates and offers are exactly what its presenters
      relayed. So what the display receives from c is what c's loop accepted, in order. */
  lemma RelayedArrivesInOrder(states: seq<System>, events: seq<Event>, i: nat, n: nat, c: Conn, r: nat)
    requires IsRun(states, events) && i < n <= |events|
    requires Step(states[i], events[i], states[i + 1]) && Grants(states[i], events[i], c, r)
    requires states[i].store.rooms[r].display.value in states[n].conns
    ensures
      var d := states[i].store.rooms[r].display.value;
      var arrivals := Arrivals(states, events, n, d);
      && DownLog(states[n].conns[d].sent) == MessagesOf(arrivals)
      && Relays(states, events, n, c) == To(d, From(arrivals, c))
  {
    hide Next;
    var d := states[i].store.rooms[r].display.value;
    ReceivedIsRelayed(states, events, n, d);
    GrantedRelaysOnlyTo(states, events, i, n, c, r);
    RelaysArrive(states, events, n, c, d);
  }

  // ----- one session -----

  function InSession(log: seq<Msg>, sid: string): seq<Msg> {
    Only(log, (m: Msg) => m.session == sid)
  }

  /** Whatever arrives under this session ID is c's. */
  predicate OwnSession(arrivals: seq<(Conn, Msg)>, c: Conn, sid: string) {
    forall k :: 0 <= k < |arrivals| && arrivals[k].1.session == sid ==> arrivals[k].0 == c
  }

  predicate AllUnder(log: seq<Msg>, sid: string) {
    forall k :: 0 <= k < |log| ==> log[k].session == sid
  }

  lemma {:induction false} SessionIsFrom(arrivals: seq<(Conn, Msg)>, c: Conn, sid: string)
    requires OwnSession(arrivals, c, sid) && AllUnder(From(arrivals, c), sid)
    ensures InSession(MessagesOf(arrivals), sid) == From(arrivals, c)
  {
    if arrivals != [] {
      var n := |arrivals| - 1;
      var last := arrivals[n];
      FromMore(arrivals[..n], last, c);
      assert arrivals == arrivals[..n] + [last];
      assert From(arrivals[..n], c) <= From(arrivals, c);
      if last.0 == c {
        assert From(arrivals, c)[|From(arrivals[..n], c)|] == last.1;
      }
      SessionIsFrom(arrivals[..n], c, sid);
      assert MessagesOf(arrivals)[..n] == MessagesOf(arrivals[..n]);
    }
  }

  lemma {:induction false} AcceptedIsUnder(taken: seq<Msg>, sid: string)
    ensures AllUnder(Accepted(taken, sid), sid)
  {
    if taken != [] {
      AcceptedIsUnder(taken[..|taken| - 1], sid);
    }
  }

  lemma DeliveredIsUnder(taken: seq<Msg>, log: seq<Msg>, d: Conn, sid: string)
    requires Delivered(taken, To(d, log), d, sid)
    ensures AllUnder(log, sid)
  {
    AcceptedIsUnder(taken, sid);
    var relays, all := To(d, log), To(d, Accepted(taken, sid));
    forall k | 0 <= k < |log| ensures log[k].session == sid {
      assert relays[k] == all[k];
    }
  }

  /** The session of c: what c's loop accepted under sid is what it relayed, and if no other
      presenter's messages arrive under sid, the candidates and offers under sid in the
      display's log are exactly c's, in order. */
  ghost predicate SessionArrives(states: seq<System>, events: seq<Event>, n: nat, c: Conn, d: Conn, sid: string)
    requires n <= |events| <= |states| && n < |states| && d in states[n].conns
  {
    var arrivals := Arrivals(states, events, n, d);
    && Delivered(Reads(states, events, n, c), Relays(states, events, n, c), d, sid)
    && (OwnSession(arrivals, c, sid) ==>
          Relays(states, events, n, c) == To(d, InSession(DownLog(states[n].conns[d].sent), sid)))
  }

  lemma SessionArrivesInOrder(states: seq<System>, events: seq<Event>, i: nat, n: nat, c: Conn, r: nat)
    requires IsRun(states, events) && i < n <= |events|
    requires Step(states[i], events[i], states[i + 1]) && Grants(states[i], events[i], c, r)
    requires states[i].store.rooms[r].display.value in states[n].conns
    ensures exists sid :: SessionArrives(states, events, n, c, states[i].store.rooms[r].display.value, sid)
  {
    hide Next, Delivered;
    var d := states[i].store.rooms[r].display.value;
    var arrivals := Arrivals(states, events, n, d);
    RelayedArrivesInOrder(states, events, i, n, c, r);
    RelayedIsPrefixOfAccepted(states, events, i, n, c, r);
    var sid :| Delivered(Reads(states, events, n, c), Relays(states, events, n, c), d, sid);
    DeliveredIsUnder(Reads(states, events, n, c), From(arrivals, c), d, sid);
    if OwnSession(arrivals, c, sid) {
      SessionIsFrom(arrivals, c, sid);
    }
    assert SessionArrives(states, events, n, c, d, sid);
  }
}
