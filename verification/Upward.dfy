/** What a presenter receives from displays, over a whole run: the loops that relay answers
    and callee candidates against the presenter's own log. */
module Upward {
  import opened Rooms
  import opened Signalling
  import opened SlotInvariant
  import opened SignallingTheorems
  import opened Writes
  import opened Screens
  import opened Received

  /** The messages of a log that a display's loop may have written. */
  function UpLog(log: seq<Msg>): seq<Msg> {
    Only(log, RelayedUp)
  }

  // ----- what is read, and what is written -----

  /** The message that c's loop reads in this step under the ID of a live session of its
      room whose caller is p, if it is of a type that displays may send. */
  function AcceptedAt(s: System, e: Event, c: Conn, p: Conn): seq<Msg> {
    if e.Run? && e.c == c && c in s.conns && s.conns[c].pc.Serving? && s.conns[c].pc.r < |s.store.rooms|
      && e.input.ok && RelayedUp(e.input.msg)
      && e.input.msg.session in s.store.rooms[s.conns[c].pc.r].sessions
      && s.store.rooms[s.conns[c].pc.r].sessions[e.input.msg.session].caller == p
    then [e.input.msg] else []
  }

  /** Everything that c's loop reads for p in the first n steps, in order. */
  function AcceptedFor(states: seq<System>, events: seq<Event>, n: nat, c: Conn, p: Conn): seq<Msg>
    requires n <= |events| <= |states|
  {
    if n == 0 then [] else AcceptedFor(states, events, n - 1, c, p) + AcceptedAt(states[n - 1], events[n - 1], c, p)
  }

  /** What this step relays to p, and which display's loop does. */
  function WrittenAt(s: System, e: Event, p: Conn): seq<(Conn, Msg)> {
    if e.Run? && e.c in s.conns && s.conns[e.c].pc.RelayUp? && s.conns[e.c].pc.caller == p && Reaches(s, p)
    then [(e.c, s.conns[e.c].pc.m)] else []
  }

  function Written(states: seq<System>, events: seq<Event>, n: nat, p: Conn): seq<(Conn, Msg)>
    requires n <= |events| <= |states|
  {
    if n == 0 then [] else Written(states, events, n - 1, p) + WrittenAt(states[n - 1], events[n - 1], p)
  }

  /** The message that c's loop has read for p and not written yet. */
  function Pending(s: System, c: Conn, p: Conn): seq<Msg> {
    if c in s.conns && s.conns[c].pc.RelayUp? && s.conns[c].pc.caller == p then [s.conns[c].pc.m] else []
  }

  // ----- the log of a presenter -----

  lemma OnlyLoopsWriteUp(s: System, e: Event)
    requires PointersOk(s) && Enabled(s, e) && (e.Run? ==> RelaysPlain(s.conns[e.c].pc))
    ensures
      var out := WritesOf(s, e);
      if e.Run? && s.conns[e.c].pc.RelayUp? then
        out == Write(s.conns[e.c].pc.caller, [s.conns[e.c].pc.m]) && RelayedUp(s.conns[e.c].pc.m)
      else out.Write? ==> forall k :: 0 <= k < |out.ms| ==> !RelayedUp(out.ms[k])
  {
    hide PointersOk;
  }

  lemma WrittenToOne(c: Conn, m: Msg)
    ensures MessagesOf([(c, m)]) == [m] && MessagesOf([]) == []
  {
  }

  lemma StepArrivesUp(s: System, e: Event, t: System, p: Conn)
    requires Step(s, e, t) && p in s.conns && AllRelayPlain(s)
    ensures p in t.conns
    ensures UpLog(t.conns[p].sent) == UpLog(s.conns[p].sent) + MessagesOf(WrittenAt(s, e, p))
  {
    hide Next, PointersOk, WritesOf, RelayedUp, Only, MessagesOf;
    StepAppends(s, e, t, p);
    OnlyLoopsWriteUp(s, e);
    var out := WritesOf(s, e);
    WrittenToOne(e.c, Msg(IceConfig, "", ""));
    if out.Write? {
      OnlyAppend(s.conns[p].sent, out.ms, RelayedUp);
      if e.Run? && s.conns[e.c].pc.RelayUp? {
        OnlyOne(s.conns[e.c].pc.m, RelayedUp);
        WrittenToOne(e.c, s.conns[e.c].pc.m);
      } else {
        OnlyNone(out.ms, RelayedUp);
      }
    }
  }

  lemma NobodyWritesTo(s: System, e: Event, p: Conn)
    requires p !in s.conns
    ensures WrittenAt(s, e, p) == []
  {
  }

  lemma {:induction false} NothingWrittenEarly(states: seq<System>, events: seq<Event>, n: nat, p: Conn)
    requires IsRun(states, events) && n <= |events| && p !in states[n].conns
    ensures Written(states, events, n, p) == []
  {
    if n > 0 {
      hide Next, WrittenAt;
      StepAt(states, events, n - 1);
      if p in states[n - 1].conns {
        HandlersMoveForward(states[n - 1], events[n - 1], states[n], p);
      }
      NothingWrittenEarly(states, events, n - 1, p);
      NobodyWritesTo(states[n - 1], events[n - 1], p);
    }
  }

  /** The answers and callee candidates in a presenter's log are exactly what displays'
      loops wrote to it, in order. */
  lemma {:induction false} ReceivedIsWritten(states: seq<System>, events: seq<Event>, n: nat, p: Conn)
    requires IsRun(states, events) && n <= |events| && p in states[n].conns
    ensures UpLog(states[n].conns[p].sent) == MessagesOf(Written(states, events, n, p))
  {
    if n > 0 {
      hide Next, WrittenAt, AllRelayPlain;
      var s, e, t := states[n - 1], events[n - 1], states[n];
      StepAt(states, events, n - 1);
      RunRelaysPlain(states, events, n - 1);
      if p in s.conns {
        ReceivedIsWritten(states, events, n - 1, p);
        StepArrivesUp(s, e, t, p);
      } else {
        NothingWrittenEarly(states, events, n - 1, p);
        NewcomerRelaysPlain(s, e, t, p);
        NobodyWritesTo(s, e, p);
      }
    }
  }

  // ----- one display's loop -----

  /** What c's loop has written to p against what it has read for p. */
  ghost predicate InStep(s: System, c: Conn, p: Conn, taken: seq<Msg>, written: seq<Msg>) {
    && written <= taken
    && (p in s.conns && s.conns[p].isOpen ==> written + Pending(s, c, p) == taken)
    && (p !in s.conns ==> taken == [] && Pending(s, c, p) == [])
  }

  /** Where a display's loop goes with what it reads. A message of a session that is live in
      its room is always taken up. */
  lemma LoopTakesUp(s: System, c: Conn, input: Input)
    requires PointersOk(s) && c in s.conns && s.conns[c].pc.Serving?
    ensures
      var r := s.conns[c].pc.r;
      var sessions := s.store.rooms[r].sessions;
      var t := DisplayStep(s, c, input);
      && c in t.conns
      && t.conns[c].pc ==
           if !input.ok then Removing(r)
           else if RelayedUp(input.msg) && input.msg.session in sessions
           then RelayUp(r, sessions[input.msg.session].caller, input.msg)
           else Serving(r)
  {
  }

  lemma LoopWritesUp(s: System, c: Conn, input: Input)
    requires PointersOk(s) && c in s.conns && s.conns[c].pc.RelayUp?
    ensures var t := DisplayStep(s, c, input); c in t.conns && t.conns[c].pc == Serving(s.conns[c].pc.r)
  {
    hide PointersOk;
  }

  lemma OthersDoNotRelayUp(s: System, e: Event, t: System, c: Conn)
    requires Step(s, e, t) && c in t.conns
    requires c in s.conns ==> !s.conns[c].pc.Serving? && !s.conns[c].pc.RelayUp?
    ensures !t.conns[c].pc.RelayUp?
  {
    hide PointersOk, EntryStep, DisplayStep, PresenterStep;
    if c in s.conns {
      HandlersMoveForward(s, e, t, c);
    } else if e.Run? {
      HandlersMoveForward(s, e, t, e.c);
    }
    if e.Run? && e.c == c {
      if EntryPc(s.conns[c].pc) {
        EntryDoesNotRelayUp(s, c, e.input);
      } else if DisplayPc(s.conns[c].pc) {
        SetupDoesNotRelayUp(s, c, e.input);
      } else {
        PresenterDoesNotRelayUp(s, c, e.input);
      }
    }
  }

  lemma EntryDoesNotRelayUp(s: System, c: Conn, input: Input)
    requires c in s.conns && EntryPc(s.conns[c].pc)
    ensures !EntryStep(s, c, input).conns[c].pc.RelayUp?
  {
  }

  lemma SetupDoesNotRelayUp(s: System, c: Conn, input: Input)
    requires PointersOk(s) && c in s.conns && DisplayPc(s.conns[c].pc)
    requires !s.conns[c].pc.Serving? && !s.conns[c].pc.RelayUp?
    ensures !DisplayStep(s, c, input).conns[c].pc.RelayUp?
  {
    hide PointersOk, SetDisplay, RemoveDisplay;
  }

  lemma PresenterDoesNotRelayUp(s: System, c: Conn, input: Input)
    requires PointersOk(s) && c in s.conns && !EntryPc(s.conns[c].pc) && !DisplayPc(s.conns[c].pc)
    ensures !PresenterStep(s, c, input).conns[c].pc.RelayUp?
  {
    hide PointersOk, PresenterStep;
    if s.conns[c].pc.Relaying? {
      LoopGoesDown(s, c, input);
    } else {
      OthersDoNotRelay(s, c, input);
    }
  }

  lemma LoopGoesDown(s: System, c: Conn, input: Input)
    requires PointersOk(s) && c in s.conns && s.conns[c].pc.Relaying?
    ensures !PresenterStep(s, c, input).conns[c].pc.RelayUp?
  {
    hide PointersOk;
  }

  /** Who is the caller of a session is connected. */
  lemma CallersExist(s: System, e: Event, c: Conn, p: Conn)
    requires Inv(s) && AcceptedAt(s, e, c, p) != []
    ensures p in s.conns
  {
    var r := s.conns[c].pc.r;
    assert RoomOk(s.store, r) && SlotOk(s, r);
  }

  /** How one step changes what c's loop has read and not written. */
  lemma PendingStep(s: System, e: Event, t: System, c: Conn, p: Conn)
    requires Step(s, e, t)
    ensures
      if e.Run? && e.c == c && c in s.conns && (s.conns[c].pc.Serving? || s.conns[c].pc.RelayUp?) then
        Pending(t, c, p) == AcceptedAt(s, e, c, p) && (Pending(s, c, p) == [] || AcceptedAt(s, e, c, p) == [])
      else Pending(t, c, p) == Pending(s, c, p) && AcceptedAt(s, e, c, p) == []
  {
    hide DisplayStep, PresenterStep, EntryStep;
    if c in s.conns {
      HandlersMoveForward(s, e, t, c);
    }
    if e.Run? && e.c == c && s.conns[c].pc.Serving? {
      LoopTakesUp(s, c, e.input);
    } else if e.Run? && e.c == c && s.conns[c].pc.RelayUp? {
      LoopWritesUp(s, c, e.input);
    } else if c in t.conns && (c !in s.conns || !s.conns[c].pc.RelayUp?) {
      if c !in s.conns || !s.conns[c].pc.Serving? {
        OthersDoNotRelayUp(s, e, t, c);
      }
    }
  }

  lemma WrittenByLoop(s: System, e: Event, c: Conn, p: Conn)
    ensures
      From(WrittenAt(s, e, p), c) ==
        if e.Run? && e.c == c && c in s.conns && s.conns[c].pc.RelayUp? && Reaches(s, p) then Pending(s, c, p) else []
  {
    var w := WrittenAt(s, e, p);
    if w != [] {
      OneFrom(w[0], c);
      assert w == [w[0]];
    }
  }

  lemma InStepStays(s: System, e: Event, t: System, c: Conn, p: Conn, taken: seq<Msg>, written: seq<Msg>)
    requires Inv(s) && Step(s, e, t) && InStep(s, c, p, taken, written)
    ensures InStep(t, c, p, taken + AcceptedAt(s, e, c, p), written + From(WrittenAt(s, e, p), c))
  {
    hide Next, Inv, AcceptedAt, WrittenAt, WritesOf;
    var accepted := AcceptedAt(s, e, c, p);
    PendingStep(s, e, t, c, p);
    WrittenByLoop(s, e, c, p);
    StepAppends(s, e, t, p);
    if accepted != [] {
      CallersExist(s, e, c, p);
    }
    assert taken + [] == taken && written + [] == written;
    assert written + [] + accepted == written + accepted;
  }

  lemma {:induction false} LoopsStayInStep(states: seq<System>, events: seq<Event>, n: nat, c: Conn, p: Conn)
    requires IsRun(states, events) && n <= |events|
    ensures InStep(states[n], c, p, AcceptedFor(states, events, n, c, p), From(Written(states, events, n, p), c))
  {
    hide Next, Inv, AcceptedAt, WrittenAt, InStep, From;
    if n == 0 {
      NothingYet(c, p);
    } else {
      LoopsStayInStep(states, events, n - 1, c, p);
      StepOfRun(states, events, n - 1);
      InStepStays(states[n - 1], events[n - 1], states[n], c, p, AcceptedFor(states, events, n - 1, c, p),
                  From(Written(states, events, n - 1, p), c));
      FromAppend(Written(states, events, n - 1, p), WrittenAt(states[n - 1], events[n - 1], p), c);
    }
  }

  lemma NothingYet(c: Conn, p: Conn)
    ensures InStep(Initial(), c, p, [], From([], c))
  {
  }

  /** The answers and callee candidates in a presenter's log are what displays' loops wrote
      to it, in order, and nothing else. While it is open, each loop has written everything
      that it read for a live session of this presenter, in order, but for a message it is
      about to write; once it is closed, a front part of that. */
  lemma UpwardArrivesInOrder(states: seq<System>, events: seq<Event>, n: nat, c: Conn, p: Conn)
    requires IsRun(states, events) && n <= |events| && p in states[n].conns
    ensures
      var written := Written(states, events, n, p);
      var taken := AcceptedFor(states, events, n, c, p);
      && Only(states[n].conns[p].sent, RelayedUp) == MessagesOf(written)
      && From(written, c) <= taken
      && (states[n].conns[p].isOpen ==> From(written, c) + Pending(states[n], c, p) == taken)
  {
    hide Next;
    ReceivedIsWritten(states, events, n, p);
    LoopsStayInStep(states, events, n, c, p);
  }
}
