/** The display and presenter handlers of core/signal.go as a state machine.

    Every connection runs one handler. Its program counter names the next
    statement that takes a lock, writes to a connection or closes one, and holds
    the handler's local variables. A step of the system is one such statement of
    one handler, or the arrival of a new connection, or the loss of one, or a
    browser taking its next message. Handlers interleave in every order. */
module Signalling {
  import opened Wrappers
  import opened Rooms

  datatype Kind = DisplayKind | PresenterKind

  datatype MsgType =
    | IceConfig | DisplayReady | RefreshCode | NewSession | PresenterClosed
    | AuthAccepted | ServerBusy | Unauthorized | LockedOut | InvalidCode | PresenterBusy
    | DisplayNotFound | UnsupportedMessage | InvalidSession
    | AddCalleeIceCandidate | GotAnswer | AddCallerIceCandidate | GotOffer
    | OtherType(name: string)

  /** WSMessage. */
  datatype Msg = Msg(typ: MsgType, session: string, value: string)

  datatype PC =
    // both handlers
    | LockCheck | Entering | InAuth | Rejected | Closing | Done
    // handleDisplay
    | Registering
    | Evicting(r: nat, victims: seq<Conn>)
    | SendIce(r: nat)
    | ReadCode(r: nat)
    | SendReady(r: nat, code: string)
    | Serving(r: nat)
    | RelayUp(r: nat, caller: Conn, m: Msg)
    | Removing(r: nat)
    | Sweeping(victims: seq<Conn>)
    // handlePresenter
    | Lookup(code: string)
    | CheckDisplay(r: nat, code: string)
    | Authorizing(r: nat, code: string)
    | Denied(r: nat)
    | Granted(r: nat, display: Conn, gen: nat, code: string)
    | Greeting(r: nat, display: Conn, gen: nat)
    | AwaitStart(r: nat, display: Conn, gen: nat)
    | Starting(r: nat, display: Conn, gen: nat)
    | Announce(r: nat, display: Conn, sid: string)
    | Confirm(r: nat, display: Conn, sid: string)
    | Relaying(r: nat, display: Conn, sid: string)
    | RelayDown(r: nat, display: Conn, sid: string, m: Msg)
    | Releasing(r: nat)
    | Notify(display: Conn, sid: string, code: string)

  /** One connection: its handler, and the messages written to it in order, of
      which the browser has taken the first `read`. */
  datatype Handler = Handler(kind: Kind, id: string, pc: PC, isOpen: bool, sent: seq<Msg>, read: nat)

  /** One result of NewVerifyCode, for one Room object. */
  datatype Issue = Issue(room: nat, code: string)

  /** `issued` only records the codes drawn so far; no handler reads it. */
  datatype System = System(store: Store, conns: map<Conn, Handler>, preAuth: int, issued: seq<Issue>)

  const PRE_AUTH_LIMIT := 128

  function Initial(): System {
    System(Store([], map[]), map[], 0, [])
  }

  // ----- primitive effects -----

  function Goto(s: System, c: Conn, pc: PC): System
    requires c in s.conns
  {
    s.(conns := s.conns[c := s.conns[c].(pc := pc)])
  }

  predicate Reaches(s: System, d: Conn) {
    d in s.conns && s.conns[d].isOpen
  }

  /** A write: appended to an open connection, an error on any other. */
  function Send(s: System, d: Conn, m: Msg): System {
    if Reaches(s, d)
    then s.(conns := s.conns[d := s.conns[d].(sent := s.conns[d].sent + [m])])
    else s
  }

  function Shut(s: System, d: Conn): System {
    if d in s.conns then s.(conns := s.conns[d := s.conns[d].(isOpen := false)]) else s
  }

  function Tell(s: System, c: Conn, t: MsgType, pc: PC): System
    requires c in s.conns
  {
    Goto(Send(s, c, Msg(t, "", "")), c, pc)
  }

  function PutRoom(s: System, r: nat, room: RoomState): System
    requires r < |s.store.rooms|
  {
    s.(store := s.store.(rooms := s.store.rooms[r := room]))
  }

  /** The Room object a handler holds a pointer to. */
  function PcRoom(pc: PC): Option<nat> {
    match pc
    case Evicting(r, _) => Some(r)
    case SendIce(r) => Some(r)
    case ReadCode(r) => Some(r)
    case SendReady(r, _) => Some(r)
    case Serving(r) => Some(r)
    case RelayUp(r, _, _) => Some(r)
    case Removing(r) => Some(r)
    case CheckDisplay(r, _) => Some(r)
    case Authorizing(r, _) => Some(r)
    case Denied(r) => Some(r)
    case Granted(r, _, _, _) => Some(r)
    case Greeting(r, _, _) => Some(r)
    case AwaitStart(r, _, _) => Some(r)
    case Starting(r, _, _) => Some(r)
    case Announce(r, _, _) => Some(r)
    case Confirm(r, _, _) => Some(r)
    case Relaying(r, _, _) => Some(r)
    case RelayDown(r, _, _, _) => Some(r)
    case Releasing(r) => Some(r)
    case _ => None
  }

  /** Every pointer a handler holds is to a Room object that was created. */
  ghost predicate PointersOk(s: System) {
    && LiveIndexOk(s.store)
    && (forall c :: c in s.conns && PcRoom(s.conns[c].pc).Some? ==>
          PcRoom(s.conns[c].pc).value < |s.store.rooms|)
  }

  // ----- handler programs -----

  /** What a step of a handler meets: whether the operation that may fail or be
      refused succeeds, the random string or the submitted code, the message read. */
  datatype Input = Input(ok: bool, text: string, msg: Msg)

  /** initialAuth and what surrounds it in both handlers. */
  function EntryStep(s: System, c: Conn, input: Input): System
    requires c in s.conns
  {
    var h := s.conns[c];
    match h.pc
    case LockCheck => if input.ok then Goto(s, c, Entering) else Tell(s, c, LockedOut, Closing)
    case Entering =>
      if s.preAuth < PRE_AUTH_LIMIT
      then Goto(s.(preAuth := s.preAuth + 1), c, InAuth)
      else Tell(s, c, ServerBusy, if h.kind.DisplayKind? then Rejected else Closing)
    case InAuth =>
      var s1 := s.(preAuth := s.preAuth - 1);
      if h.kind.DisplayKind?
      then Goto(s1, c, if input.ok then Registering else Rejected)
      else Goto(s1, c, if input.ok then Lookup(input.text) else Closing)
    case Rejected => Tell(s, c, Unauthorized, Closing)
    case Closing => Goto(Shut(s, c), c, Done)
    case _ => s
  }

  predicate RelayedUp(m: Msg) {
    m.typ == AddCalleeIceCandidate || m.typ == GotAnswer
  }

  predicate RelayedDown(m: Msg) {
    m.typ == AddCallerIceCandidate || m.typ == GotOffer
  }

  function RegisterStep(s: System, c: Conn, newCode: string): System
    requires PointersOk(s) && c in s.conns
  {
    var res := SetDisplay(s.store, s.conns[c].id, c, newCode);
    var replaced := if res.replaced.Some? then [res.replaced.value] else [];
    Goto(s.(store := res.store, issued := s.issued + [Issue(res.room, newCode)]),
         c, Evicting(res.room, replaced + res.stale))
  }

  /** The deferred RemoveDisplay looks the room up again, by the ID of its object. */
  function RemoveStep(s: System, c: Conn, r: nat): System
    requires PointersOk(s) && c in s.conns && r < |s.store.rooms|
  {
    var res := RemoveDisplay(s.store, s.store.rooms[r].id, c);
    Goto(s.(store := res.0), c, Sweeping(res.1))
  }

  /** handleDisplay from SetDisplay on. */
  function DisplayStep(s: System, c: Conn, input: Input): System
    requires PointersOk(s) && c in s.conns
  {
    var h := s.conns[c];
    match h.pc
    case Registering => RegisterStep(s, c, input.text)
    case Evicting(r, victims) =>
      if victims == [] then Goto(s, c, SendIce(r))
      else Goto(Shut(s, victims[0]), c, Evicting(r, victims[1..]))
    case SendIce(r) =>
      if input.ok && h.isOpen then Tell(s, c, IceConfig, ReadCode(r)) else Goto(s, c, Removing(r))
    case ReadCode(r) => Goto(s, c, SendReady(r, s.store.rooms[r].code))
    case SendReady(r, code) =>
      if h.isOpen
      then Goto(Send(s, c, Msg(DisplayReady, code, s.store.rooms[r].id)), c, Serving(r))
      else Goto(s, c, Removing(r))
    case Serving(r) =>
      if !input.ok then Goto(s, c, Removing(r))
      else if !RelayedUp(input.msg) then Tell(s, c, UnsupportedMessage, Serving(r))
      else if input.msg.session !in s.store.rooms[r].sessions then Tell(s, c, InvalidSession, Serving(r))
      else Goto(s, c, RelayUp(r, s.store.rooms[r].sessions[input.msg.session].caller, input.msg))
    case RelayUp(r, caller, m) => Goto(Send(s, caller, m), c, Serving(r))
    case Removing(r) => RemoveStep(s, c, r)
    case Sweeping(victims) =>
      if victims == [] then Goto(s, c, Closing)
      else Goto(Shut(s, victims[0]), c, Sweeping(victims[1..]))
    case _ => s
  }

  function AuthorizeStep(s: System, c: Conn, r: nat, code: string, newCode: string): System
    requires c in s.conns && r < |s.store.rooms|
  {
    var (room, grant) := Authorize(s.store.rooms[r], code, c, newCode);
    if grant.Some? then
      Goto(PutRoom(s, r, room).(issued := s.issued + [Issue(r, newCode)]),
           c, Granted(r, grant.value.display, grant.value.generation, grant.value.code))
    else Goto(s, c, Denied(r))
  }

  function StartStep(s: System, c: Conn, r: nat, d: Conn, g: nat, suffix: string): System
    requires c in s.conns && r < |s.store.rooms|
  {
    var (room, session) := Start(s.store.rooms[r], c, g, suffix);
    if session.Some? then Goto(PutRoom(s, r, room), c, Announce(r, d, session.value.id))
    else Tell(s, c, DisplayNotFound, Releasing(r))
  }

  ghost function ReleaseStep(s: System, c: Conn, r: nat): System
    requires c in s.conns && r < |s.store.rooms|
  {
    var (room, out) := Release(s.store.rooms[r], c);
    Goto(PutRoom(s, r, room), c,
         if out.display.Some? then Notify(out.display.value, out.session, out.code) else Closing)
  }

  /** handlePresenter from the room lookup on. */
  ghost function PresenterStep(s: System, c: Conn, input: Input): System
    requires PointersOk(s) && c in s.conns
  {
    var h := s.conns[c];
    match h.pc
    case Lookup(code) =>
      if h.id in s.store.live then Goto(s, c, CheckDisplay(s.store.live[h.id], code))
      else Tell(s, c, DisplayNotFound, Closing)
    case CheckDisplay(r, code) =>
      if s.store.rooms[r].display.Some? then Goto(s, c, Authorizing(r, code))
      else Tell(s, c, DisplayNotFound, Closing)
    case Authorizing(r, code) => AuthorizeStep(s, c, r, code, input.text)
    case Denied(r) =>
      var room := s.store.rooms[r];
      Tell(s, c, if room.display.Some? && room.presenter.Some? then PresenterBusy
                 else if input.ok then InvalidCode else LockedOut, Closing)
    case Granted(r, d, g, code) => Goto(Send(s, d, Msg(RefreshCode, "", code)), c, Greeting(r, d, g))
    case Greeting(r, d, g) =>
      if input.ok && h.isOpen
      then Tell(Send(s, c, Msg(IceConfig, "", "")), c, AuthAccepted, AwaitStart(r, d, g))
      else Goto(s, c, Releasing(r))
    case AwaitStart(r, d, g) =>
      if input.ok then Goto(s, c, Starting(r, d, g)) else Tell(s, c, UnsupportedMessage, Releasing(r))
    case Starting(r, d, g) => StartStep(s, c, r, d, g, input.text)
    case Announce(r, d, sid) =>
      if Reaches(s, d) then Goto(Send(s, d, Msg(NewSession, sid, sid)), c, Confirm(r, d, sid))
      else Tell(s, c, DisplayNotFound, Releasing(r))
    case Confirm(r, d, sid) =>
      if h.isOpen then Goto(Send(s, c, Msg(NewSession, sid, sid)), c, Relaying(r, d, sid))
      else Goto(s, c, Releasing(r))
    case Relaying(r, d, sid) =>
      if !input.ok then Goto(s, c, Releasing(r))
      else if input.msg.session != sid then Tell(s, c, InvalidSession, Relaying(r, d, sid))
      else if !RelayedDown(input.msg) then Tell(s, c, UnsupportedMessage, Relaying(r, d, sid))
      else Goto(s, c, RelayDown(r, d, sid, input.msg))
    case RelayDown(r, d, sid, m) =>
      if Reaches(s, d) then Goto(Send(s, d, m), c, Relaying(r, d, sid)) else Goto(s, c, Releasing(r))
    case Releasing(r) => ReleaseStep(s, c, r)
    case Notify(d, sid, code) => Goto(Send(s, d, Msg(PresenterClosed, sid, code)), c, Closing)
    case _ => s
  }

  predicate EntryPc(pc: PC) {
    pc.LockCheck? || pc.Entering? || pc.InAuth? || pc.Rejected? || pc.Closing? || pc.Done?
  }

  predicate DisplayPc(pc: PC) {
    || pc.Registering? || pc.Evicting? || pc.SendIce? || pc.ReadCode? || pc.SendReady?
    || pc.Serving? || pc.RelayUp? || pc.Removing? || pc.Sweeping?
  }

  ghost function RunHandler(s: System, c: Conn, input: Input): System
    requires PointersOk(s) && c in s.conns
  {
    var pc := s.conns[c].pc;
    if EntryPc(pc) then EntryStep(s, c, input)
    else if DisplayPc(pc) then DisplayStep(s, c, input)
    else PresenterStep(s, c, input)
  }

  // ----- runs -----

  datatype Event =
    | Connect(c: Conn, kind: Kind, id: string)
    | Run(c: Conn, input: Input)
    | Break(c: Conn)
    | Deliver(c: Conn)

  ghost predicate Enabled(s: System, e: Event) {
    match e
    case Connect(c, _, _) => c !in s.conns
    case Run(c, _) => c in s.conns && !s.conns[c].pc.Done?
    case Break(c) => c in s.conns
    case Deliver(c) => c in s.conns && s.conns[c].read < |s.conns[c].sent|
  }

  ghost function Next(s: System, e: Event): System
    requires PointersOk(s) && Enabled(s, e)
  {
    match e
    case Connect(c, kind, id) =>
      s.(conns := s.conns[c := Handler(kind, id, if kind.DisplayKind? then Entering else LockCheck, true, [], 0)])
    case Run(c, input) => RunHandler(s, c, input)
    case Break(c) => Shut(s, c)
    case Deliver(c) => s.(conns := s.conns[c := s.conns[c].(read := s.conns[c].read + 1)])
  }

  ghost predicate Step(s: System, e: Event, t: System) {
    PointersOk(s) && Enabled(s, e) && t == Next(s, e)
  }

  ghost predicate StepOf(states: seq<System>, events: seq<Event>, i: nat)
    requires i < |events| && |states| == |events| + 1
  {
    Step(states[i], events[i], states[i + 1])
  }

  /** Any finite run of the server. */
  ghost predicate IsRun(states: seq<System>, events: seq<Event>) {
    && |states| == |events| + 1
    && states[0] == Initial()
    && (forall i :: 0 <= i < |events| ==> StepOf(states, events, i))
  }
}
