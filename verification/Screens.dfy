/** What a display shows, as the browser page of files/static/main.js computes it
    from the messages it takes, and which steps of the server can change that. */
module Screens {
  import opened Wrappers
  import opened Rooms
  import opened Signalling
  import opened RoomActions
  import opened Writes

  /** The code field of the page; Connecting is the text ------. */
  datatype Screen = Blank | Code(code: string) | Connecting

  /** The effect of one message on the code field. */
  function Shows(m: Msg): Option<Screen> {
    match m.typ
    case DisplayReady => Some(Code(m.session))
    case RefreshCode => Some(Connecting)
    case NewSession => Some(Connecting)
    case PresenterClosed => Some(Code(m.value))
    case _ => None
  }

  /** The code field after taking these messages in order. */
  function ScreenOf(log: seq<Msg>): Screen {
    if log == [] then Blank
    else
      var shown := Shows(log[|log| - 1]);
      if shown.Some? then shown.value else ScreenOf(log[..|log| - 1])
  }

  /** Every code that these messages put on the screen at some point. */
  function CodesShown(log: seq<Msg>): set<string> {
    if log == [] then {}
    else
      var shown := Shows(log[|log| - 1]);
      CodesShown(log[..|log| - 1]) + if shown.Some? && shown.value.Code? then {shown.value.code} else {}
  }

  lemma LogStep(log: seq<Msg>, m: Msg)
    ensures ScreenOf(log + [m]) == if Shows(m).Some? then Shows(m).value else ScreenOf(log)
    ensures CodesShown(log + [m]) ==
      CodesShown(log) + if Shows(m).Some? && Shows(m).value.Code? then {Shows(m).value.code} else {}
  {
    assert (log + [m])[..|log|] == log;
  }

  lemma {:induction false} ScreenIsShown(log: seq<Msg>)
    ensures ScreenOf(log).Code? ==> ScreenOf(log).code in CodesShown(log)
    ensures ScreenOf(log).Blank? ==> CodesShown(log) == {}
  {
    if log != [] {
      ScreenIsShown(log[..|log| - 1]);
    }
  }

  lemma {:induction false} BlankShowsNothing(log: seq<Msg>)
    requires ScreenOf(log) == Blank
    ensures CodesShown(log) == {}
  {
    if log != [] {
      BlankShowsNothing(log[..|log| - 1]);
    }
  }

  function View(s: System, c: Conn): Screen
    requires c in s.conns
  {
    ScreenOf(s.conns[c].sent)
  }

  function Shown(s: System, c: Conn): set<string>
    requires c in s.conns
  {
    CodesShown(s.conns[c].sent)
  }

  /** The write of a step that changes somebody's code field. */
  function TextWrite(s: System, e: Event): Option<(Conn, Msg)>
    requires PointersOk(s) && Enabled(s, e)
  {
    if !e.Run? then None
    else
      match s.conns[e.c].pc
      case SendReady(r, code) => Some((e.c, Msg(DisplayReady, code, s.store.rooms[r].id)))
      case Granted(_, d, _, code) => Some((d, Msg(RefreshCode, "", code)))
      case Announce(_, d, sid) => Some((d, Msg(NewSession, sid, sid)))
      case Confirm(_, _, sid) => Some((e.c, Msg(NewSession, sid, sid)))
      case Notify(d, sid, code) => Some((d, Msg(PresenterClosed, sid, code)))
      case _ => None
  }

  /** The log of d after a step whose only text write is w. */
  ghost predicate LogFollows(s: System, t: System, d: Conn, w: Option<(Conn, Msg)>) {
    && d in s.conns && d in t.conns
    && (t.conns[d].isOpen ==> s.conns[d].isOpen)
    && (if w.Some? && w.value.0 == d && s.conns[d].isOpen
        then t.conns[d].sent == s.conns[d].sent + [w.value.1]
        else PlainTail(s.conns[d].sent, t.conns[d].sent))
  }

  /** The log b continues a with messages that leave the code field alone. */
  ghost predicate PlainTail(a: seq<Msg>, b: seq<Msg>) {
    a <= b && forall k :: |a| <= k < |b| ==> Shows(b[k]).None?
  }

  lemma {:induction false} PlainTailShowsTheSame(a: seq<Msg>, b: seq<Msg>)
    requires PlainTail(a, b)
    ensures ScreenOf(b) == ScreenOf(a) && CodesShown(b) == CodesShown(a)
  {
    if |b| > |a| {
      PlainTailShowsTheSame(a, b[..|b| - 1]);
    } else {
      assert a == b;
    }
  }

  /** What is relayed never touches the code field. */
  ghost predicate RelaysPlain(pc: PC) {
    && (pc.RelayDown? ==> RelayedDown(pc.m))
    && (pc.RelayUp? ==> RelayedUp(pc.m))
  }

  // ----- what a step writes -----

  /** The write of a step that changes a code field or is relayed down to a display. */
  function MarkedWrite(s: System, e: Event): Option<(Conn, Msg)>
    requires PointersOk(s) && Enabled(s, e)
  {
    if e.Run? && s.conns[e.c].pc.RelayDown?
    then Some((s.conns[e.c].pc.display, s.conns[e.c].pc.m))
    else TextWrite(s, e)
  }

  /** The log b continues a with unmarked messages. */
  ghost predicate QuietTail(a: seq<Msg>, b: seq<Msg>) {
    a <= b && forall k :: |a| <= k < |b| ==> Shows(b[k]).None? && !RelayedDown(b[k])
  }

  /** The log of d after a step of which w is the only marked write. */
  ghost predicate WriteFollows(s: System, t: System, d: Conn, w: Option<(Conn, Msg)>) {
    d in s.conns ==>
      && d in t.conns
      && (t.conns[d].isOpen ==> s.conns[d].isOpen)
      && (if w.Some? && w.value.0 == d && s.conns[d].isOpen
          then t.conns[d].sent == s.conns[d].sent + [w.value.1]
          else QuietTail(s.conns[d].sent, t.conns[d].sent))
  }

  /** The marked write is what is written, or it reaches nobody and the rest is unmarked. */
  ghost predicate MarksOnly(s: System, w: Option<(Conn, Msg)>, out: Out) {
    || (w.Some? && out == Write(w.value.0, [w.value.1]))
    || (&& (w.Some? ==> !Reaches(s, w.value.0))
        && (out.Write? ==> forall k :: 0 <= k < |out.ms| ==> Shows(out.ms[k]).None? && !RelayedDown(out.ms[k])))
  }

  lemma DisplayMarks(s: System, e: Event)
    requires PointersOk(s) && Enabled(s, e) && e.Run? && RelaysPlain(s.conns[e.c].pc)
    requires EntryPc(s.conns[e.c].pc) || DisplayPc(s.conns[e.c].pc)
    ensures MarksOnly(s, MarkedWrite(s, e), DisplayWrites(s, e.c, e.input))
  {
    hide PointersOk, PresenterWrites;
  }

  lemma PresenterMarks(s: System, e: Event)
    requires PointersOk(s) && Enabled(s, e) && e.Run? && RelaysPlain(s.conns[e.c].pc)
    requires !EntryPc(s.conns[e.c].pc) && !DisplayPc(s.conns[e.c].pc)
    ensures MarksOnly(s, MarkedWrite(s, e), PresenterWrites(s, e.c, e.input))
  {
    hide PointersOk, DisplayWrites;
  }

  /** Of what a step writes only the marked write is marked. */
  lemma OnlyOneMarked(s: System, e: Event)
    requires PointersOk(s) && Enabled(s, e)
    requires e.Run? ==> RelaysPlain(s.conns[e.c].pc)
    ensures MarksOnly(s, MarkedWrite(s, e), WritesOf(s, e))
  {
    hide PointersOk, DisplayWrites, PresenterWrites;
    if e.Run? {
      if EntryPc(s.conns[e.c].pc) || DisplayPc(s.conns[e.c].pc) {
        DisplayMarks(s, e);
      } else {
        PresenterMarks(s, e);
      }
    }
  }

  /** A step changes the log of d by its marked write, if that is to d, and otherwise only
      by messages that change no code field and are not relayed. */
  lemma StepWrites(s: System, e: Event, t: System, d: Conn)
    requires Step(s, e, t) && d in s.conns
    requires e.Run? ==> RelaysPlain(s.conns[e.c].pc)
    ensures WriteFollows(s, t, d, MarkedWrite(s, e))
  {
    hide Next, WritesOf, MarkedWrite, PointersOk, RelaysPlain;
    StepAppends(s, e, t, d);
    OnlyOneMarked(s, e);
  }

  /** A step changes code fields only by its text write. */
  lemma StepLogs(s: System, e: Event, t: System, d: Conn)
    requires Step(s, e, t) && d in s.conns
    requires e.Run? ==> RelaysPlain(s.conns[e.c].pc)
    ensures LogFollows(s, t, d, TextWrite(s, e))
  {
    hide Next;
    StepWrites(s, e, t, d);
  }
}
