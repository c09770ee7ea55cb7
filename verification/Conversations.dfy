/** What every handler says to its own connection, over a whole run: the order of its
    messages, and one complaint for every message that it does not relay. */
module Conversations {
  import opened Rooms
  import opened Signalling
  import opened SlotInvariant
  import opened SignallingTheorems
  import opened Writes
  import opened Screens
  import opened Received
  import opened Sessions

  // ----- what a handler says to its own connection -----

  /** The types that only a display's own handler writes to it. */
  predicate DisplayOwn(m: Msg) {
    !RelayedDown(m) && m.typ != RefreshCode && m.typ != NewSession && m.typ != PresenterClosed
  }

  predicate PresenterOwn(m: Msg) {
    !RelayedUp(m)
  }

  function OwnOf(kind: Kind): Msg -> bool {
    if kind.DisplayKind? then DisplayOwn else PresenterOwn
  }

  /** The part of c's log that its own handler wrote. */
  function OwnLog(s: System, c: Conn): seq<Msg>
    requires c in s.conns
  {
    Only(s.conns[c].sent, OwnOf(s.conns[c].kind))
  }

  /** What this step of c's handler says to c, whether or not c is still there. */
  function Says(s: System, e: Event, c: Conn): seq<Msg>
    requires PointersOk(s) && Enabled(s, e)
  {
    if e.Run? && e.c == c && WritesOf(s, e).Write? && WritesOf(s, e).to == c then WritesOf(s, e).ms else []
  }

  /** The messages of a step are the own ones of the handler's connection, or they go to
      the addressee and are none of the addressee's own. */
  lemma WhoWritesWhat(s: System, e: Event)
    requires PointersOk(s) && Enabled(s, e) && e.Run? && KindOk(s, e.c) && RelaysPlain(s.conns[e.c].pc)
    ensures
      var out := WritesOf(s, e);
      out.Write? ==>
        if out.to == e.c then forall k :: 0 <= k < |out.ms| ==> OwnOf(s.conns[e.c].kind)(out.ms[k])
        else
          && out.to in s.conns && s.conns[out.to].kind != s.conns[e.c].kind
          && forall k :: 0 <= k < |out.ms| ==> !OwnOf(s.conns[out.to].kind)(out.ms[k])
  {
    hide PointersOk;
  }

  lemma OwnLogStep(s: System, e: Event, t: System, c: Conn)
    requires Step(s, e, t) && KindsOk(s) && AllRelayPlain(s) && c in s.conns
    ensures c in t.conns
    ensures OwnLog(t, c) == OwnLog(s, c) + if s.conns[c].isOpen then Says(s, e, c) else []
  {
    hide Next, PointersOk, DisplayWrites, PresenterWrites, Only, OwnOf, RelaysPlain;
    StepAppends(s, e, t, c);
    var out := WritesOf(s, e);
    if e.Run? {
      assert KindOk(s, e.c) && RelaysPlain(s.conns[e.c].pc);
      WhoWritesWhat(s, e);
    }
    if out.Write? && out.to == c {
      var own := OwnOf(s.conns[c].kind);
      OnlyAppend(s.conns[c].sent, out.ms, own);
      if e.Run? && e.c == c {
        OnlyAll(out.ms, own);
      } else if e.Run? {
        OnlyNone(out.ms, own);
      }
    }
    assert OwnLog(s, c) + [] == OwnLog(s, c);
  }

  lemma {:induction false} OnlyAll(log: seq<Msg>, keep: Msg -> bool)
    requires forall k :: 0 <= k < |log| ==> keep(log[k])
    ensures Only(log, keep) == log
  {
    if log != [] {
      OnlyAll(log[..|log| - 1], keep);
    }
  }

  // ----- complaints -----

  /** The complaint about the message that c's loop reads in this step, if it is none that
      the loop relays: to a presenter about another session's ID or, under its own, about
      the type; to a display about the type or, if that is right, about an ID under which
      its room has no session. */
  function ComplaintAt(s: System, e: Event, c: Conn): seq<Msg> {
    if !(e.Run? && e.c == c && c in s.conns && e.input.ok) then []
    else if s.conns[c].pc.Relaying? then
      if e.input.msg.session != s.conns[c].pc.sid then [Msg(InvalidSession, "", "")]
      else if !RelayedDown(e.input.msg) then [Msg(UnsupportedMessage, "", "")]
      else []
    else if s.conns[c].pc.Serving? && s.conns[c].pc.r < |s.store.rooms| then
      if !RelayedUp(e.input.msg) then [Msg(UnsupportedMessage, "", "")]
      else if e.input.msg.session !in s.store.rooms[s.conns[c].pc.r].sessions then [Msg(InvalidSession, "", "")]
      else []
    else []
  }

  function Complaints(states: seq<System>, events: seq<Event>, n: nat, c: Conn): seq<Msg>
    requires n <= |events| <= |states|
  {
    if n == 0 then [] else Complaints(states, events, n - 1, c) + ComplaintAt(states[n - 1], events[n - 1], c)
  }

  // ----- the scripts -----

  function Line(t: MsgType): seq<Msg> {
    [Msg(t, "", "")]
  }

  /** What a presenter's handler has said when it has opened its session. */
  function Greeting(): seq<Msg> {
    Line(IceConfig) + Line(AuthAccepted)
  }

  function Joined(sid: string): seq<Msg> {
    Greeting() + [Msg(NewSession, sid, sid)]
  }

  function Welcomed(id: string, code: string): seq<Msg> {
    Line(IceConfig) + [Msg(DisplayReady, code, id)]
  }

  predicate Refusal(said: seq<Msg>) {
    || said == Line(LockedOut) || said == Line(ServerBusy) || said == Line(DisplayNotFound)
    || said == Line(PresenterBusy) || said == Line(InvalidCode)
  }

  /** Everything a presenter's handler may have said by the time it gives its slot back. */
  ghost predicate SaidWithSlot(complaints: seq<Msg>, said: seq<Msg>) {
    || said == [] || said == Greeting()
    || said == Greeting() + Line(UnsupportedMessage) || said == Greeting() + Line(DisplayNotFound)
    || exists sid :: said == Joined(sid) + complaints
  }

  ghost predicate PresenterScript(pc: PC, complaints: seq<Msg>, said: seq<Msg>) {
    match pc
    case AwaitStart(_, _, _) => said == Greeting() && complaints == []
    case Starting(_, _, _) => said == Greeting() && complaints == []
    case Announce(_, _, _) => said == Greeting() && complaints == []
    case Confirm(_, _, _) => said == Greeting() && complaints == []
    case Relaying(_, _, sid) => said == Joined(sid) + complaints
    case RelayDown(_, _, sid, _) => said == Joined(sid) + complaints
    case Releasing(_) => SaidWithSlot(complaints, said)
    case Notify(_, _, _) => SaidWithSlot(complaints, said)
    case Closing => SaidWithSlot(complaints, said) || Refusal(said)
    case Done => SaidWithSlot(complaints, said) || Refusal(said)
    case _ => said == [] && complaints == []
  }

  /** Everything a display's handler may have said by the time it gives its room up. */
  ghost predicate SaidWithRoom(id: string, complaints: seq<Msg>, said: seq<Msg>) {
    || said == [] || said == Line(IceConfig)
    || exists code :: said == Welcomed(id, code) + complaints
  }

  ghost predicate DisplayScript(id: string, pc: PC, complaints: seq<Msg>, said: seq<Msg>) {
    match pc
    case Rejected => (said == [] || said == Line(ServerBusy)) && complaints == []
    case ReadCode(_) => said == Line(IceConfig) && complaints == []
    case SendReady(_, _) => said == Line(IceConfig) && complaints == []
    case Serving(_) => exists code :: said == Welcomed(id, code) + complaints
    case RelayUp(_, _, _) => exists code :: said == Welcomed(id, code) + complaints
    case Removing(_) => SaidWithRoom(id, complaints, said)
    case Sweeping(_) => SaidWithRoom(id, complaints, said)
    case Closing =>
      || SaidWithRoom(id, complaints, said)
      || said == Line(Unauthorized) || said == Line(ServerBusy) + Line(Unauthorized)
    case Done =>
      || SaidWithRoom(id, complaints, said)
      || said == Line(Unauthorized) || said == Line(ServerBusy) + Line(Unauthorized)
    case _ => said == [] && complaints == []
  }

  ghost predicate Script(h: Handler, complaints: seq<Msg>, said: seq<Msg>) {
    if h.kind.DisplayKind? then DisplayScript(h.id, h.pc, complaints, said)
    else PresenterScript(h.pc, complaints, said)
  }

  // ----- step by step -----

  /** What a step of a display's handler can say, and where it then goes. */
  predicate DisplayTalks(id: string, a: PC, open: bool, b: PC, says: seq<Msg>, complaint: seq<Msg>) {
    match a
    case Entering => (b.InAuth? && says == []) || (b.Rejected? && says == Line(ServerBusy))
    case InAuth => (b.Registering? || b.Rejected?) && says == []
    case Rejected => b.Closing? && says == Line(Unauthorized)
    case Closing => b.Done? && says == []
    case Registering => b.Evicting? && says == []
    case Evicting(_, _) => (b.Evicting? || b.SendIce?) && says == []
    case SendIce(_) => if b.ReadCode? then open && says == Line(IceConfig) else b.Removing? && (says == [] || !open)
    case ReadCode(_) => b.SendReady? && says == []
    case SendReady(_, code) =>
      says == [Msg(DisplayReady, code, id)] && if open then b.Serving? else b.Removing?
    case Serving(_) => says == complaint && (b.Serving? || b.RelayUp? || b.Removing?)
    case RelayUp(_, _, _) => b.Serving? && says == []
    case Removing(_) => b.Sweeping? && says == []
    case Sweeping(_) => (b.Sweeping? || b.Closing?) && says == []
    case _ => false
  }

  /** The same of a presenter's handler. */
  predicate PresenterTalks(a: PC, open: bool, b: PC, says: seq<Msg>, complaint: seq<Msg>) {
    match a
    case LockCheck => (b.Entering? && says == []) || (b.Closing? && says == Line(LockedOut))
    case Entering => (b.InAuth? && says == []) || (b.Closing? && says == Line(ServerBusy))
    case InAuth => (b.Lookup? || b.Closing?) && says == []
    case Closing => b.Done? && says == []
    case Lookup(_) => (b.CheckDisplay? && says == []) || (b.Closing? && says == Line(DisplayNotFound))
    case CheckDisplay(_, _) => (b.Authorizing? && says == []) || (b.Closing? && says == Line(DisplayNotFound))
    case Authorizing(_, _) => (b.Granted? || b.Denied?) && says == []
    case Denied(_) => b.Closing? && Refusal(says)
    case Granted(_, _, _, _) => b.Greeting? && says == []
    case Greeting(_, _, _) =>
      if b.AwaitStart? then open && says == Greeting() else b.Releasing? && (says == [] || !open)
    case AwaitStart(_, _, _) => (b.Starting? && says == []) || (b.Releasing? && says == Line(UnsupportedMessage))
    case Starting(_, _, _) => (b.Announce? && says == []) || (b.Releasing? && says == Line(DisplayNotFound))
    case Announce(_, _, sid) =>
      (b.Confirm? && b.sid == sid && says == []) || (b.Releasing? && says == Line(DisplayNotFound))
    case Confirm(_, _, sid) =>
      says == [Msg(NewSession, sid, sid)] && if open then b.Relaying? && b.sid == sid else b.Releasing?
    case Relaying(_, _, sid) => says == complaint && (((b.Relaying? || b.RelayDown?) && b.sid == sid) || b.Releasing?)
    case RelayDown(_, _, sid, _) => says == [] && ((b.Relaying? && b.sid == sid) || b.Releasing?)
    case Releasing(_) => (b.Notify? || b.Closing?) && says == []
    case Notify(_, _, _) => b.Closing? && says == []
    case _ => false
  }

  /** The script goes on with what was said, or breaks off where nobody was there to hear it. */
  ghost predicate GoesOn(h: Handler, open: bool, complaints: seq<Msg>, said: seq<Msg>, says: seq<Msg>) {
    Script(h, complaints, said + says) || (!open && Script(h, complaints, said))
  }

  lemma DisplayTalkGoesOn(
      a: Handler, b: Handler, says: seq<Msg>, complaint: seq<Msg>, complaints: seq<Msg>, said: seq<Msg>)
    requires a.kind == b.kind == DisplayKind && a.id == b.id && Script(a, complaints, said)
    requires DisplayTalks(a.id, a.pc, a.isOpen, b.pc, says, complaint)
    requires a.pc.Serving? || complaint == []
    ensures GoesOn(b, a.isOpen, complaints + complaint, said, says)
  {
    assert said + [] == said && complaints + [] == complaints;
    if a.pc.Serving? || a.pc.RelayUp? {
      var code :| said == Welcomed(a.id, code) + complaints;
      assert said + complaint == Welcomed(a.id, code) + (complaints + complaint);
      assert DisplayScript(b.id, b.pc, complaints + complaint, said + complaint);
    } else if a.pc.SendReady? && a.isOpen {
      assert said + says == Welcomed(a.id, a.pc.code) + [];
    }
  }

  lemma PresenterTalkGoesOn(
      a: Handler, b: Handler, says: seq<Msg>, complaint: seq<Msg>, complaints: seq<Msg>, said: seq<Msg>)
    requires a.kind == b.kind == PresenterKind && Script(a, complaints, said)
    requires PresenterTalks(a.pc, a.isOpen, b.pc, says, complaint)
    requires a.pc.Relaying? || complaint == []
    ensures GoesOn(b, a.isOpen, complaints + complaint, said, says)
  {
    assert said + [] == said && complaints + [] == complaints;
    if a.pc.Relaying? {
      assert said + complaint == Joined(a.pc.sid) + (complaints + complaint);
    } else if a.pc.Confirm? && a.isOpen {
      assert said + says == Joined(a.pc.sid) + [];
    }
  }

  /** A step of c's handler on its program counter and what it says. */
  ghost predicate StepTalks(s: System, e: Event, pc: PC)
    requires PointersOk(s) && Enabled(s, e) && e.Run?
  {
    var h := s.conns[e.c];
    && (h.pc.Serving? || h.pc.Relaying? || ComplaintAt(s, e, e.c) == [])
    && if h.kind.DisplayKind? then DisplayTalks(h.id, h.pc, h.isOpen, pc, Says(s, e, e.c), ComplaintAt(s, e, e.c))
       else PresenterTalks(h.pc, h.isOpen, pc, Says(s, e, e.c), ComplaintAt(s, e, e.c))
  }

  lemma EntryTalks(s: System, e: Event)
    requires PointersOk(s) && Enabled(s, e) && e.Run? && EntryPc(s.conns[e.c].pc) && KindOk(s, e.c)
    ensures StepTalks(s, e, EntryStep(s, e.c, e.input).conns[e.c].pc)
  {
    hide PointersOk;
  }

  lemma SetupTalks(s: System, e: Event)
    requires PointersOk(s) && Enabled(s, e) && e.Run? && SetupPc(s.conns[e.c].pc) && KindOk(s, e.c) && InOwnRoom(s, e.c)
    ensures StepTalks(s, e, DisplayStep(s, e.c, e.input).conns[e.c].pc)
  {
    hide PointersOk, SetDisplay;
  }

  lemma ServiceTalks(s: System, e: Event)
    requires PointersOk(s) && Enabled(s, e) && e.Run? && DisplayPc(s.conns[e.c].pc) && !SetupPc(s.conns[e.c].pc)
    requires KindOk(s, e.c) && InOwnRoom(s, e.c)
    ensures StepTalks(s, e, DisplayStep(s, e.c, e.input).conns[e.c].pc)
  {
    hide PointersOk, RemoveDisplay;
  }

  lemma AskingTalks(s: System, e: Event)
    requires PointersOk(s) && Enabled(s, e) && e.Run? && AskingPc(s.conns[e.c].pc) && KindOk(s, e.c)
    ensures StepTalks(s, e, PresenterStep(s, e.c, e.input).conns[e.c].pc)
  {
    hide PointersOk, Authorize;
  }

  lemma GreetingTalks(s: System, e: Event)
    requires PointersOk(s) && Enabled(s, e) && e.Run? && GreetingPc(s.conns[e.c].pc) && KindOk(s, e.c)
    ensures StepTalks(s, e, PresenterStep(s, e.c, e.input).conns[e.c].pc)
  {
    hide PointersOk;
  }

  lemma SessionTalks(s: System, e: Event)
    requires PointersOk(s) && Enabled(s, e) && e.Run? && SessionPc(s.conns[e.c].pc) && KindOk(s, e.c)
    ensures StepTalks(s, e, PresenterStep(s, e.c, e.input).conns[e.c].pc)
  {
    hide PointersOk;
  }

  lemma LeavingTalks(s: System, e: Event)
    requires PointersOk(s) && Enabled(s, e) && e.Run? && KindOk(s, e.c)
    requires s.conns[e.c].pc.Releasing? || s.conns[e.c].pc.Notify?
    ensures StepTalks(s, e, PresenterStep(s, e.c, e.input).conns[e.c].pc)
  {
    hide PointersOk, Release;
  }

  lemma ActorTalks(s: System, e: Event, t: System)
    requires Step(s, e, t) && e.Run? && KindOk(s, e.c) && InOwnRoom(s, e.c) && e.c in t.conns
    ensures StepTalks(s, e, t.conns[e.c].pc)
  {
    hide PointersOk, EntryStep, DisplayStep, PresenterStep, StepTalks;
    var pc := s.conns[e.c].pc;
    if EntryPc(pc) {
      EntryTalks(s, e);
    } else if SetupPc(pc) {
      SetupTalks(s, e);
    } else if DisplayPc(pc) {
      ServiceTalks(s, e);
    } else if AskingPc(pc) {
      AskingTalks(s, e);
    } else if GreetingPc(pc) {
      GreetingTalks(s, e);
    } else if SessionPc(pc) {
      SessionTalks(s, e);
    } else {
      LeavingTalks(s, e);
    }
  }

  lemma ActorGoesOn(s: System, e: Event, t: System, complaints: seq<Msg>, said: seq<Msg>)
    requires Step(s, e, t) && e.Run? && KindOk(s, e.c) && InOwnRoom(s, e.c) && Script(s.conns[e.c], complaints, said)
    ensures e.c in t.conns
    ensures GoesOn(t.conns[e.c], s.conns[e.c].isOpen, complaints + ComplaintAt(s, e, e.c), said, Says(s, e, e.c))
  {
    hide Next, PointersOk, DisplayTalks, PresenterTalks, Script, GoesOn, Says, WritesOf, ComplaintAt;
    StepAppends(s, e, t, e.c);
    ActorTalks(s, e, t);
    var a, b := s.conns[e.c], t.conns[e.c];
    if a.kind.DisplayKind? {
      DisplayTalkGoesOn(a, b, Says(s, e, e.c), ComplaintAt(s, e, e.c), complaints, said);
    } else {
      PresenterTalkGoesOn(a, b, Says(s, e, e.c), ComplaintAt(s, e, e.c), complaints, said);
    }
  }

  /** c's own part of its log follows the script as far as it goes, and as long as c is
      connected it is all that its handler has said. */
  ghost predicate Follows(s: System, c: Conn, complaints: seq<Msg>)
    requires c in s.conns
  {
    exists said :: Script(s.conns[c], complaints, said) && OwnLog(s, c) <= said
      && (s.conns[c].isOpen ==> OwnLog(s, c) == said)
  }

  lemma FollowingStep(s: System, e: Event, t: System, c: Conn, complaints: seq<Msg>)
    requires Step(s, e, t) && KindsOk(s) && AllRelayPlain(s) && c in s.conns && InOwnRoom(s, c)
    requires Follows(s, c, complaints)
    ensures c in t.conns && Follows(t, c, complaints + ComplaintAt(s, e, c))
  {
    hide Next, PointersOk, Script, OwnLog, Says, WritesOf, AllRelayPlain;
    var said :| Script(s.conns[c], complaints, said) && OwnLog(s, c) <= said
      && (s.conns[c].isOpen ==> OwnLog(s, c) == said);
    OwnLogStep(s, e, t, c);
    StepAppends(s, e, t, c);
    assert KindOk(s, c);
    assert complaints + [] == complaints && OwnLog(s, c) + [] == OwnLog(s, c);
    if e.Run? && e.c == c {
      ActorGoesOn(s, e, t, complaints, said);
    } else {
      SameScript(s, e, t, c, complaints, said);
    }
  }

  lemma SameScript(s: System, e: Event, t: System, c: Conn, complaints: seq<Msg>, said: seq<Msg>)
    requires Step(s, e, t) && c in s.conns && !(e.Run? && e.c == c) && Script(s.conns[c], complaints, said)
    ensures Says(s, e, c) == [] && ComplaintAt(s, e, c) == []
    ensures c in t.conns && Script(t.conns[c], complaints, said)
  {
    hide Next, PointersOk, WritesOf;
    HandlersMoveForward(s, e, t, c);
    StepAppends(s, e, t, c);
  }

  // ----- whole runs -----

  lemma NewcomerFollows(s: System, e: Event, t: System, c: Conn)
    requires Step(s, e, t) && c in t.conns && c !in s.conns
    ensures Follows(t, c, []) && ComplaintAt(s, e, c) == []
  {
    if e.Run? {
      hide Next;
      HandlersMoveForward(s, e, t, e.c);
    } else {
      assert Script(t.conns[c], [], []);
    }
  }

  lemma {:induction false} NoComplaintsEarly(states: seq<System>, events: seq<Event>, n: nat, c: Conn)
    requires IsRun(states, events) && n <= |events| && c !in states[n].conns
    ensures Complaints(states, events, n, c) == []
  {
    if n > 0 {
      hide Next;
      StepAt(states, events, n - 1);
      if c in states[n - 1].conns {
        HandlersMoveForward(states[n - 1], events[n - 1], states[n], c);
      }
      NoComplaintsEarly(states, events, n - 1, c);
    }
  }

  /** What a handler says to its own connection keeps to the script of its kind, at every
      point of every run: refusals end the conversation, iceConfig and authAccepted come
      before newSession, iceConfig before displayReady, and after that comes one complaint for
      every message that is not relayed, of the right kind, in order. */
  lemma {:induction false} ConversationsFollowScript(states: seq<System>, events: seq<Event>, n: nat, c: Conn)
    requires IsRun(states, events) && n <= |events| && c in states[n].conns
    ensures Follows(states[n], c, Complaints(states, events, n, c))
  {
    hide Next, Inv, Follows, KindsOk, AllRelayPlain, InOwnRoom, ComplaintAt;
    if n == 0 {
      assert false;
    } else {
      var s, e, t := states[n - 1], events[n - 1], states[n];
      StepOfRun(states, events, n - 1);
      if c in s.conns {
        ConversationsFollowScript(states, events, n - 1, c);
        RunKeepsKinds(states, events, n - 1);
        RunRelaysPlain(states, events, n - 1);
        HandlersUseTheirRoom(states, events, n - 1, c);
        FollowingStep(s, e, t, c, Complaints(states, events, n - 1, c));
      } else {
        NoComplaintsEarly(states, events, n - 1, c);
        NewcomerFollows(s, e, t, c);
        assert Complaints(states, events, n, c) == [];
      }
    }
  }
}
