/** What every step of a handler writes, and to whom; the logs of all connections follow. */
module Writes {
  import opened Wrappers
  import opened Rooms
  import opened Signalling
  import opened SlotInvariant

  /** Messages written to one connection, in order. */
  datatype Out = Nothing | Write(to: Conn, ms: seq<Msg>)

  function Note(c: Conn, t: MsgType): Out {
    Write(c, [Msg(t, "", "")])
  }

  // ----- parts of a log -----

  /** The messages of a log that satisfy keep, in order. */
  function Only(log: seq<Msg>, keep: Msg -> bool): seq<Msg> {
    if log == [] then []
    else
      var m := log[|log| - 1];
      Only(log[..|log| - 1], keep) + if keep(m) then [m] else []
  }

  lemma {:induction false} OnlyAppend(a: seq<Msg>, b: seq<Msg>, keep: Msg -> bool)
    ensures Only(a + b, keep) == Only(a, keep) + Only(b, keep)
  {
    if b == [] {
      assert a + b == a;
    } else {
      var n := |b| - 1;
      OnlyAppend(a, b[..n], keep);
      assert (a + b)[..|a + b| - 1] == a + b[..n];
    }
  }

  lemma OnlyOne(m: Msg, keep: Msg -> bool)
    ensures Only([m], keep) == if keep(m) then [m] else []
  {
    assert [m][..0] == [];
  }

  lemma {:induction false} OnlyNone(log: seq<Msg>, keep: Msg -> bool)
    requires forall k :: 0 <= k < |log| ==> !keep(log[k])
    ensures Only(log, keep) == []
  {
    if log != [] {
      OnlyNone(log[..|log| - 1], keep);
    }
  }

  // ----- what a step writes -----

  /** The writes of entry and display handlers. */
  function DisplayWrites(s: System, c: Conn, input: Input): Out
    requires PointersOk(s) && c in s.conns
  {
    match s.conns[c].pc
    case LockCheck => if input.ok then Nothing else Note(c, LockedOut)
    case Entering => if s.preAuth < PRE_AUTH_LIMIT then Nothing else Note(c, ServerBusy)
    case Rejected => Note(c, Unauthorized)
    case SendIce(_) => if input.ok then Note(c, IceConfig) else Nothing
    case SendReady(r, code) => Write(c, [Msg(DisplayReady, code, s.store.rooms[r].id)])
    case Serving(r) =>
      if !input.ok then Nothing
      else if !RelayedUp(input.msg) then Note(c, UnsupportedMessage)
      else if input.msg.session !in s.store.rooms[r].sessions then Note(c, InvalidSession)
      else Nothing
    case RelayUp(_, caller, m) => Write(caller, [m])
    case _ => Nothing
  }

  /** The writes of presenter handlers. */
  function PresenterWrites(s: System, c: Conn, input: Input): Out
    requires PointersOk(s) && c in s.conns
  {
    match s.conns[c].pc
    case Lookup(_) => if s.conns[c].id in s.store.live then Nothing else Note(c, DisplayNotFound)
    case CheckDisplay(r, _) => if s.store.rooms[r].display.Some? then Nothing else Note(c, DisplayNotFound)
    case Denied(r) =>
      var room := s.store.rooms[r];
      Note(c, if room.display.Some? && room.presenter.Some? then PresenterBusy
              else if input.ok then InvalidCode else LockedOut)
    case Granted(_, d, _, code) => Write(d, [Msg(RefreshCode, "", code)])
    case Greeting(_, _, _) =>
      if input.ok then Write(c, [Msg(IceConfig, "", ""), Msg(AuthAccepted, "", "")]) else Nothing
    case AwaitStart(_, _, _) => if input.ok then Nothing else Note(c, UnsupportedMessage)
    case Starting(r, _, g) => if Starts(s.store.rooms[r], c, g) then Nothing else Note(c, DisplayNotFound)
    case Announce(_, d, sid) =>
      if Reaches(s, d) then Write(d, [Msg(NewSession, sid, sid)]) else Note(c, DisplayNotFound)
    case Confirm(_, _, sid) => Write(c, [Msg(NewSession, sid, sid)])
    case Relaying(_, _, sid) =>
      if !input.ok then Nothing
      else if input.msg.session != sid then Note(c, InvalidSession)
      else if !RelayedDown(input.msg) then Note(c, UnsupportedMessage)
      else Nothing
    case RelayDown(_, d, _, m) => Write(d, [m])
    case Notify(d, sid, code) => Write(d, [Msg(PresenterClosed, sid, code)])
    case _ => Nothing
  }

  function WritesOf(s: System, e: Event): Out
    requires PointersOk(s) && Enabled(s, e)
  {
    if !e.Run? then Nothing
    else if EntryPc(s.conns[e.c].pc) || DisplayPc(s.conns[e.c].pc) then DisplayWrites(s, e.c, e.input)
    else PresenterWrites(s, e.c, e.input)
  }

  /** These writes came to the log of d, if they are to d and it was open, and nothing else. */
  ghost predicate Appends(s: System, t: System, d: Conn, out: Out) {
    d in s.conns ==>
      && d in t.conns
      && t.conns[d].kind == s.conns[d].kind && t.conns[d].id == s.conns[d].id
      && (t.conns[d].isOpen ==> s.conns[d].isOpen)
      && t.conns[d].sent ==
           if s.conns[d].isOpen && out.Write? && out.to == d then s.conns[d].sent + out.ms else s.conns[d].sent
  }

  lemma EntryAppends(s: System, c: Conn, input: Input, d: Conn)
    requires PointersOk(s) && c in s.conns && EntryPc(s.conns[c].pc)
    ensures Appends(s, EntryStep(s, c, input), d, DisplayWrites(s, c, input))
  {
  }

  lemma SetupAppends(s: System, c: Conn, input: Input, d: Conn)
    requires PointersOk(s) && c in s.conns && SetupPc(s.conns[c].pc)
    ensures Appends(s, DisplayStep(s, c, input), d, DisplayWrites(s, c, input))
  {
    hide PointersOk, SetDisplay;
  }

  lemma ServiceAppends(s: System, c: Conn, input: Input, d: Conn)
    requires PointersOk(s) && c in s.conns && DisplayPc(s.conns[c].pc) && !SetupPc(s.conns[c].pc)
    ensures Appends(s, DisplayStep(s, c, input), d, DisplayWrites(s, c, input))
  {
    hide PointersOk, RemoveDisplay;
  }

  lemma AskingAppends(s: System, c: Conn, input: Input, d: Conn)
    requires PointersOk(s) && c in s.conns && AskingPc(s.conns[c].pc)
    ensures Appends(s, PresenterStep(s, c, input), d, PresenterWrites(s, c, input))
  {
    hide PointersOk, Authorize;
  }

  lemma GreetingAppends(s: System, c: Conn, input: Input, d: Conn)
    requires PointersOk(s) && c in s.conns && GreetingPc(s.conns[c].pc)
    ensures Appends(s, PresenterStep(s, c, input), d, PresenterWrites(s, c, input))
  {
    hide PointersOk;
  }

  lemma SessionAppends(s: System, c: Conn, input: Input, d: Conn)
    requires PointersOk(s) && c in s.conns && SessionPc(s.conns[c].pc)
    ensures Appends(s, PresenterStep(s, c, input), d, PresenterWrites(s, c, input))
  {
    hide PointersOk;
  }

  lemma LeavingAppends(s: System, c: Conn, input: Input, d: Conn)
    requires PointersOk(s) && c in s.conns && (s.conns[c].pc.Releasing? || s.conns[c].pc.Notify?)
    ensures Appends(s, PresenterStep(s, c, input), d, PresenterWrites(s, c, input))
  {
    hide PointersOk, Release;
  }

  /** The log of every connection grows by what the step writes to it. */
  lemma StepAppends(s: System, e: Event, t: System, d: Conn)
    requires Step(s, e, t)
    ensures Appends(s, t, d, WritesOf(s, e))
  {
    hide EntryStep, DisplayStep, PresenterStep, DisplayWrites, PresenterWrites, PointersOk;
    if e.Run? {
      var pc := s.conns[e.c].pc;
      if EntryPc(pc) { EntryAppends(s, e.c, e.input, d); }
      else if SetupPc(pc) { SetupAppends(s, e.c, e.input, d); }
      else if DisplayPc(pc) { ServiceAppends(s, e.c, e.input, d); }
      else if AskingPc(pc) { AskingAppends(s, e.c, e.input, d); }
      else if GreetingPc(pc) { GreetingAppends(s, e.c, e.input, d); }
      else if SessionPc(pc) { SessionAppends(s, e.c, e.input, d); }
      else { LeavingAppends(s, e.c, e.input, d); }
    }
  }
}
