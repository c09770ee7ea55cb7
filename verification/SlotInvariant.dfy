/** The inductive invariant of the signalling system: who holds which slot. */
module SlotInvariant {
  import opened Wrappers
  import opened Rooms
  import opened Signalling

  /** The room whose display slot a handler may hold at this point. */
  function DisplaySlot(pc: PC): Option<nat> {
    match pc
    case Evicting(r, _) => Some(r)
    case SendIce(r) => Some(r)
    case ReadCode(r) => Some(r)
    case SendReady(r, _) => Some(r)
    case Serving(r) => Some(r)
    case RelayUp(r, _, _) => Some(r)
    case Removing(r) => Some(r)
    case _ => None
  }

  /** The room whose presenter slot a handler may hold at this point. */
  function PresenterSlot(pc: PC): Option<nat> {
    match pc
    case Granted(r, _, _, _) => Some(r)
    case Greeting(r, _, _) => Some(r)
    case AwaitStart(r, _, _) => Some(r)
    case Starting(r, _, _) => Some(r)
    case Announce(r, _, _) => Some(r)
    case Confirm(r, _, _) => Some(r)
    case Relaying(r, _, _) => Some(r)
    case RelayDown(r, _, _, _) => Some(r)
    case Releasing(r) => Some(r)
    case _ => None
  }

  /** The handler has not yet tried to take a slot. */
  predicate Early(pc: PC) {
    || pc.LockCheck? || pc.Entering? || pc.InAuth? || pc.Registering?
    || pc.Lookup? || pc.CheckDisplay? || pc.Authorizing?
  }

  /** The connections a handler is about to close. */
  function Victims(pc: PC): seq<Conn> {
    match pc
    case Evicting(_, victims) => victims
    case Sweeping(victims) => victims
    case _ => []
  }

  /** The display a presenter's handler kept when it was authorized. */
  function Kept(pc: PC): Option<Conn> {
    match pc
    case Granted(_, d, _, _) => Some(d)
    case Greeting(_, d, _) => Some(d)
    case AwaitStart(_, d, _) => Some(d)
    case Starting(_, d, _) => Some(d)
    case Announce(_, d, _) => Some(d)
    case Confirm(_, d, _) => Some(d)
    case Relaying(_, d, _) => Some(d)
    case RelayDown(_, d, _, _) => Some(d)
    case _ => None
  }

  /** The generation a presenter's handler kept, until it starts its session. */
  function KeptGeneration(pc: PC): Option<nat> {
    match pc
    case Granted(_, _, g, _) => Some(g)
    case Greeting(_, _, g) => Some(g)
    case AwaitStart(_, _, g) => Some(g)
    case Starting(_, _, g) => Some(g)
    case _ => None
  }

  ghost predicate Free(s: System, v: Conn) {
    forall r :: 0 <= r < |s.store.rooms| ==>
      s.store.rooms[r].display != Some(v) && s.store.rooms[r].presenter != Some(v)
  }

  /** Holds no slot and, its handler being past registration, never will again. */
  ghost predicate Spent(s: System, v: Conn) {
    v in s.conns && !Early(s.conns[v].pc) && Free(s, v)
  }

  ghost predicate SlotOk(s: System, r: nat)
    requires r < |s.store.rooms|
  {
    var room := s.store.rooms[r];
    && (room.display.Some? ==>
          room.display.value in s.conns && DisplaySlot(s.conns[room.display.value].pc) == Some(r))
    && (room.presenter.Some? ==>
          room.presenter.value in s.conns && PresenterSlot(s.conns[room.presenter.value].pc) == Some(r))
  }

  ghost predicate VictimsOk(s: System, c: Conn)
    requires c in s.conns
  {
    forall v :: v in Victims(s.conns[c].pc) ==> Spent(s, v)
  }

  /** A presenter past authorization either still holds its slot, beside the display
      it was authorized with, or has lost it together with that display. */
  ghost predicate BondOk(s: System, c: Conn)
    requires c in s.conns
  {
    var pc := s.conns[c].pc;
    Kept(pc).Some? ==>
      var r := PresenterSlot(pc).value;
      && r < |s.store.rooms|
      && (s.store.rooms[r].presenter == Some(c) ==> s.store.rooms[r].display == Kept(pc))
      && (s.store.rooms[r].presenter != Some(c) ==> Spent(s, Kept(pc).value))
  }

  ghost predicate GenerationOk(s: System, c: Conn)
    requires c in s.conns
  {
    var pc := s.conns[c].pc;
    KeptGeneration(pc).Some? ==>
      var r := PresenterSlot(pc).value;
      && r < |s.store.rooms|
      && KeptGeneration(pc).value <= s.store.rooms[r].generation
      && (s.store.rooms[r].generation == KeptGeneration(pc).value <==> s.store.rooms[r].presenter == Some(c))
      && (s.store.rooms[r].presenter == Some(c) ==> s.store.rooms[r].sessions == map[])
  }

  ghost predicate PointerOk(s: System, c: Conn)
    requires c in s.conns
  {
    PcRoom(s.conns[c].pc).Some? ==> PcRoom(s.conns[c].pc).value < |s.store.rooms|
  }

  ghost predicate ConnOk(s: System, c: Conn)
    requires c in s.conns
  {
    PointerOk(s, c) && VictimsOk(s, c) && BondOk(s, c) && GenerationOk(s, c)
  }

  ghost function InAuthSet(s: System): set<Conn> {
    set c | c in s.conns && s.conns[c].pc.InAuth?
  }

  ghost predicate PreAuthOk(s: System) {
    s.preAuth == |InAuthSet(s)| && s.preAuth <= PRE_AUTH_LIMIT
  }

  ghost predicate Inv(s: System) {
    && StoreOk(s.store)
    && (forall r :: 0 <= r < |s.store.rooms| ==> SlotOk(s, r))
    && (forall c :: c in s.conns ==> ConnOk(s, c))
    && PreAuthOk(s)
  }

  lemma InvImpliesPointers(s: System)
    requires Inv(s)
    ensures PointersOk(s)
  {
    forall c | c in s.conns && PcRoom(s.conns[c].pc).Some?
      ensures PcRoom(s.conns[c].pc).value < |s.store.rooms|
    {
      assert ConnOk(s, c);
    }
  }

  lemma InvAt(s: System, c: Conn, r: nat)
    requires Inv(s) && c in s.conns && r < |s.store.rooms|
    ensures ConnOk(s, c) && SlotOk(s, r) && RoomOk(s.store, r)
  {
  }

  lemma InitialInv()
    ensures Inv(Initial())
  {
    assert InAuthSet(Initial()) == {};
  }

  // ----- what one step may change -----

  /** Only c's program counter moves, and never back to before registration. */
  ghost predicate OneMoves(s: System, t: System, c: Conn) {
    && c in s.conns && t.conns.Keys == s.conns.Keys
    && (forall d :: d in s.conns && d != c ==> t.conns[d].pc == s.conns[d].pc)
    && (!Early(s.conns[c].pc) ==> !Early(t.conns[c].pc))
  }

  /** Room by room, a slot is emptied, taken by c, or left alone. */
  ghost predicate OnlyGains(s: System, t: System, c: Conn) {
    && |s.store.rooms| <= |t.store.rooms|
    && (forall r :: 0 <= r < |t.store.rooms| ==>
          && (t.store.rooms[r].display == None || t.store.rooms[r].display == Some(c)
              || (r < |s.store.rooms| && t.store.rooms[r].display == s.store.rooms[r].display))
          && (t.store.rooms[r].presenter == None || t.store.rooms[r].presenter == Some(c)
              || (r < |s.store.rooms| && t.store.rooms[r].presenter == s.store.rooms[r].presenter)))
  }

  lemma OneKindOfSlot(pc: PC)
    ensures DisplaySlot(pc).Some? ==> PresenterSlot(pc).None? && Kept(pc).None? && !Early(pc)
    ensures PresenterSlot(pc).Some? ==> DisplaySlot(pc).None? && !Early(pc)
    ensures Kept(pc).Some? ==> PresenterSlot(pc).Some? && Victims(pc) == []
    ensures KeptGeneration(pc).Some? ==> Kept(pc).Some?
    ensures PresenterSlot(pc).Some? ==> PcRoom(pc) == PresenterSlot(pc)
    ensures DisplaySlot(pc).Some? ==> PcRoom(pc) == DisplaySlot(pc)
  {
  }

  /** The rooms in which c can hold a slot, read off its program counter. */
  lemma SlotsByPc(s: System, c: Conn)
    requires Inv(s) && c in s.conns
    ensures forall q :: 0 <= q < |s.store.rooms| ==>
      && (s.store.rooms[q].display == Some(c) ==> DisplaySlot(s.conns[c].pc) == Some(q))
      && (s.store.rooms[q].presenter == Some(c) ==> PresenterSlot(s.conns[c].pc) == Some(q))
  {
    forall q | 0 <= q < |s.store.rooms|
      ensures s.store.rooms[q].display == Some(c) ==> DisplaySlot(s.conns[c].pc) == Some(q)
      ensures s.store.rooms[q].presenter == Some(c) ==> PresenterSlot(s.conns[c].pc) == Some(q)
    {
      assert SlotOk(s, q);
    }
  }

  lemma SpentStays(s: System, t: System, c: Conn, v: Conn)
    requires OneMoves(s, t, c) && OnlyGains(s, t, c) && Spent(s, v)
    requires v == c ==> Free(t, c)
    ensures Spent(t, v)
  {
  }

  /** Who loses a slot to c, or to nobody, is spent. */
  lemma LoserIsSpent(s: System, t: System, c: Conn, r: nat, v: Conn)
    requires Inv(s) && OneMoves(s, t, c) && OnlyGains(s, t, c)
    requires r < |s.store.rooms| && (v == c ==> Free(t, c))
    requires s.store.rooms[r].display == Some(v) || s.store.rooms[r].presenter == Some(v)
    requires t.store.rooms[r].display != Some(v) && t.store.rooms[r].presenter != Some(v)
    ensures Spent(t, v)
  {
    assert SlotOk(s, r);
    SlotsByPc(s, v);
    OneKindOfSlot(s.conns[v].pc);
  }

  /** A step within a handler that leaves the store alone. */
  ghost predicate Internal(a: PC, b: PC) {
    && DisplaySlot(a) == DisplaySlot(b) && PresenterSlot(a) == PresenterSlot(b)
    && (!Early(a) ==> !Early(b))
    && (forall v :: v in Victims(b) ==> v in Victims(a))
    && (Kept(b).Some? ==> Kept(b) == Kept(a))
    && (KeptGeneration(b).Some? ==> KeptGeneration(b) == KeptGeneration(a))
  }

  lemma SameInAuth(s: System, t: System, c: Conn)
    requires PreAuthOk(s) && OneMoves(s, t, c) && t.preAuth == s.preAuth
    requires s.conns[c].pc.InAuth? == t.conns[c].pc.InAuth?
    ensures PreAuthOk(t)
  {
    assert InAuthSet(t) == InAuthSet(s);
  }

  lemma InternalConnOk(s: System, t: System, c: Conn, d: Conn)
    requires OneMoves(s, t, c) && t.store == s.store && d in s.conns && ConnOk(s, d)
    requires d == c ==> Internal(s.conns[c].pc, t.conns[c].pc) && PointerOk(t, c)
    ensures ConnOk(t, d)
  {
    forall v | v in Victims(t.conns[d].pc) ensures Spent(t, v) {
      assert Spent(s, v);
    }
    if Kept(t.conns[d].pc).Some? && t.store.rooms[PresenterSlot(t.conns[d].pc).value].presenter != Some(d) {
      assert Spent(s, Kept(s.conns[d].pc).value);
    }
  }

  lemma InternalKeepsInv(s: System, t: System, c: Conn)
    requires Inv(s) && OneMoves(s, t, c) && t.store == s.store
    requires Internal(s.conns[c].pc, t.conns[c].pc) && PointerOk(t, c) && PreAuthOk(t)
    ensures Inv(t)
  {
    forall r | 0 <= r < |t.store.rooms| ensures SlotOk(t, r) {
      assert SlotOk(s, r);
    }
    forall d | d in t.conns ensures ConnOk(t, d) {
      assert ConnOk(s, d);
      InternalConnOk(s, t, c, d);
    }
  }

  /** A move inside a handler, to a point that refers to no new Room object. */
  ghost predicate Quiet(s: System, c: Conn, pc: PC) {
    && c in s.conns && Internal(s.conns[c].pc, pc)
    && !s.conns[c].pc.InAuth? && !pc.InAuth?
    && (PcRoom(pc).Some? ==> PcRoom(pc).value < |s.store.rooms|)
  }

  lemma GotoKeepsInv(s: System, c: Conn, pc: PC)
    requires Inv(s) && Quiet(s, c, pc)
    ensures Inv(Goto(s, c, pc))
  {
    SameInAuth(s, Goto(s, c, pc), c);
    InternalKeepsInv(s, Goto(s, c, pc), c);
  }

  lemma SendKeepsInv(s: System, d: Conn, m: Msg)
    requires Inv(s)
    ensures Inv(Send(s, d, m))
  {
    if Reaches(s, d) {
      var t := Send(s, d, m);
      assert InAuthSet(t) == InAuthSet(s);
      InternalKeepsInv(s, t, d);
    }
  }

  lemma ShutKeepsInv(s: System, d: Conn)
    requires Inv(s)
    ensures Inv(Shut(s, d))
  {
    if d in s.conns {
      var t := Shut(s, d);
      assert InAuthSet(t) == InAuthSet(s);
      InternalKeepsInv(s, t, d);
    }
  }

  lemma TellKeepsInv(s: System, c: Conn, typ: MsgType, pc: PC)
    requires Inv(s) && Quiet(s, c, pc)
    ensures Inv(Tell(s, c, typ, pc))
  {
    SendKeepsInv(s, c, Msg(typ, "", ""));
    GotoKeepsInv(Send(s, c, Msg(typ, "", "")), c, pc);
  }

  /** Every slot has the same holder in both states. */
  ghost predicate SameSlots(s: System, t: System) {
    && |t.store.rooms| == |s.store.rooms|
    && (forall q :: 0 <= q < |s.store.rooms| ==>
          && t.store.rooms[q].display == s.store.rooms[q].display
          && t.store.rooms[q].presenter == s.store.rooms[q].presenter)
  }

  /** c takes its first slot, or ends with none, or keeps what it has. */
  ghost predicate Orderly(s: System, t: System, c: Conn)
    requires c in s.conns && c in t.conns
  {
    || Early(s.conns[c].pc)
    || Free(t, c)
    || (DisplaySlot(s.conns[c].pc) == DisplaySlot(t.conns[c].pc)
        && PresenterSlot(s.conns[c].pc) == PresenterSlot(t.conns[c].pc) && SameSlots(s, t))
  }

  /** A presenter's handler that refers to room r. */
  ghost predicate BondedTo(s: System, d: Conn, r: nat) {
    d in s.conns && Kept(s.conns[d].pc).Some? && PresenterSlot(s.conns[d].pc) == Some(r)
  }

  /** What a step that touches only Room object r must establish. */
  lemma RoomStepKeepsInv(s: System, t: System, c: Conn, r: nat)
    requires Inv(s) && OneMoves(s, t, c) && OnlyGains(s, t, c) && StoreOk(t.store) && PreAuthOk(t)
    requires r < |t.store.rooms| <= |s.store.rooms| + 1
    requires forall q :: 0 <= q < |s.store.rooms| && q != r ==> t.store.rooms[q] == s.store.rooms[q]
    requires |t.store.rooms| > |s.store.rooms| ==> r == |s.store.rooms|
    requires Orderly(s, t, c) && SlotOk(t, r) && ConnOk(t, c)
    requires forall d :: BondedTo(s, d, r) && d != c ==> BondOk(t, d) && GenerationOk(t, d)
    ensures Inv(t)
  {
    forall q | 0 <= q < |t.store.rooms| ensures SlotOk(t, q) {
      if q != r {
        assert SlotOk(s, q);
      }
    }
    forall d | d in t.conns ensures ConnOk(t, d) {
      if d != c {
        assert ConnOk(s, d);
        OthersVictimsOk(s, t, c, d);
        OthersBondOk(s, t, c, d, r);
      }
    }
  }

  lemma OrderlySpentStays(s: System, t: System, c: Conn, v: Conn)
    requires OneMoves(s, t, c) && OnlyGains(s, t, c) && Orderly(s, t, c) && Spent(s, v)
    ensures Spent(t, v)
  {
    SpentStays(s, t, c, v);
  }

  lemma OthersVictimsOk(s: System, t: System, c: Conn, d: Conn)
    requires OneMoves(s, t, c) && OnlyGains(s, t, c) && Orderly(s, t, c)
    requires d in s.conns && d != c && VictimsOk(s, d)
    ensures VictimsOk(t, d)
  {
    forall v | v in Victims(t.conns[d].pc) ensures Spent(t, v) {
      OrderlySpentStays(s, t, c, v);
    }
  }

  lemma OthersBondOk(s: System, t: System, c: Conn, d: Conn, r: nat)
    requires OneMoves(s, t, c) && OnlyGains(s, t, c) && Orderly(s, t, c)
    requires forall q :: 0 <= q < |s.store.rooms| && q != r ==> t.store.rooms[q] == s.store.rooms[q]
    requires d in s.conns && d != c && BondOk(s, d) && GenerationOk(s, d)
    requires BondedTo(s, d, r) ==> BondOk(t, d) && GenerationOk(t, d)
    ensures BondOk(t, d) && GenerationOk(t, d)
  {
    var pc := s.conns[d].pc;
    if Kept(pc).Some? && PresenterSlot(pc) != Some(r) {
      if s.store.rooms[PresenterSlot(pc).value].presenter != Some(d) {
        OrderlySpentStays(s, t, c, Kept(pc).value);
      }
    }
  }

  /** A bond to the changed room survives if its holder kept the slot and the
      generation, or lost the slot together with the display. */
  lemma BondOnChangedRoom(s: System, t: System, c: Conn, d: Conn, r: nat)
    requires Inv(s) && OneMoves(s, t, c) && OnlyGains(s, t, c) && Orderly(s, t, c)
    requires BondedTo(s, d, r) && d != c && r < |s.store.rooms|
    requires
      var was, room := s.store.rooms[r], t.store.rooms[r];
      && was.generation <= room.generation
      && (was.presenter != Some(d) ==> room.presenter != Some(d))
      && (was.presenter == Some(d) ==>
            || room == was
            || (room.generation > was.generation && room.presenter != Some(d) && room.display != was.display
                && (was.display == Some(c) ==> Free(t, c))))
    ensures BondOk(t, d) && GenerationOk(t, d)
  {
    assert ConnOk(s, d) && SlotOk(s, r);
    var kept := Kept(s.conns[d].pc).value;
    OneKindOfSlot(s.conns[d].pc);
    if s.store.rooms[r].presenter != Some(d) {
      OrderlySpentStays(s, t, c, kept);
    } else if t.store.rooms[r] != s.store.rooms[r] {
      SlotsByPc(s, kept);
      OneKindOfSlot(s.conns[kept].pc);
      LoserIsSpent(s, t, c, r, kept);
    }
  }

  /** The bonds of others survive if the room stays, or only its presenter slot changes
      between c and nobody. */
  lemma OtherBondsStay(s: System, t: System, c: Conn, r: nat)
    requires Inv(s) && OneMoves(s, t, c) && OnlyGains(s, t, c) && Orderly(s, t, c) && r < |s.store.rooms|
    requires
      var was, room := s.store.rooms[r], t.store.rooms[r];
      || room == was
      || (&& room.generation == was.generation
          && (was.presenter == None || was.presenter == Some(c))
          && (room.presenter == None || room.presenter == Some(c)))
    ensures forall d :: BondedTo(s, d, r) && d != c ==> BondOk(t, d) && GenerationOk(t, d)
  {
    forall d | BondedTo(s, d, r) && d != c ensures BondOk(t, d) && GenerationOk(t, d) {
      BondOnChangedRoom(s, t, c, d, r);
    }
  }

  // ----- the steps that touch a room -----

  /** What a registration changes, apart from the bonds of others. */
  lemma RegisterMoves(s: System, c: Conn, newCode: string)
    requires Inv(s) && PointersOk(s) && c in s.conns && s.conns[c].pc.Registering?
    ensures
      var t := RegisterStep(s, c, newCode);
      && OneMoves(s, t, c) && OnlyGains(s, t, c) && StoreOk(t.store) && PreAuthOk(t) && Orderly(s, t, c)
  {
    SetDisplayKeepsStore(s.store, s.conns[c].id, c, newCode);
    SameInAuth(s, RegisterStep(s, c, newCode), c);
  }

  lemma RegisterSlots(s: System, c: Conn, newCode: string)
    requires Inv(s) && PointersOk(s) && c in s.conns && s.conns[c].pc.Registering?
    requires OneMoves(s, RegisterStep(s, c, newCode), c) && OnlyGains(s, RegisterStep(s, c, newCode), c)
    ensures
      var t, r := RegisterStep(s, c, newCode), SetDisplay(s.store, s.conns[c].id, c, newCode).room;
      r < |t.store.rooms| && SlotOk(t, r) && ConnOk(t, c)
  {
    var t, r := RegisterStep(s, c, newCode), SetDisplay(s.store, s.conns[c].id, c, newCode).room;
    if r < |s.store.rooms| {
      var room := s.store.rooms[r];
      forall v | room.display == Some(v) || room.presenter == Some(v) ensures Spent(t, v) {
        assert SlotOk(s, r);
        LoserIsSpent(s, t, c, r, v);
      }
    }
  }

  lemma RegisterBonds(s: System, c: Conn, newCode: string, d: Conn)
    requires Inv(s) && PointersOk(s) && c in s.conns && s.conns[c].pc.Registering?
    requires OneMoves(s, RegisterStep(s, c, newCode), c) && OnlyGains(s, RegisterStep(s, c, newCode), c)
    requires Orderly(s, RegisterStep(s, c, newCode), c) && d != c
    requires BondedTo(s, d, SetDisplay(s.store, s.conns[c].id, c, newCode).room)
    ensures BondOk(RegisterStep(s, c, newCode), d) && GenerationOk(RegisterStep(s, c, newCode), d)
  {
    hide OneMoves, OnlyGains, Orderly;
    var r := SetDisplay(s.store, s.conns[c].id, c, newCode).room;
    assert ConnOk(s, d);
    if r < |s.store.rooms| {
      assert SlotOk(s, r);
      SlotsByPc(s, c);
      BondOnChangedRoom(s, RegisterStep(s, c, newCode), c, d, r);
    }
  }

  lemma RegisteringKeepsInv(s: System, c: Conn, newCode: string)
    requires Inv(s) && PointersOk(s) && c in s.conns && s.conns[c].pc.Registering?
    ensures Inv(RegisterStep(s, c, newCode))
  {
    hide Inv, OnlyGains, Orderly, StoreOk, PreAuthOk, SlotOk, ConnOk, BondOk, GenerationOk;
    var t, r := RegisterStep(s, c, newCode), SetDisplay(s.store, s.conns[c].id, c, newCode).room;
    RegisterMoves(s, c, newCode);
    RegisterSlots(s, c, newCode);
    forall d | BondedTo(s, d, r) && d != c ensures BondOk(t, d) && GenerationOk(t, d) {
      RegisterBonds(s, c, newCode, d);
    }
    RoomStepKeepsInv(s, t, c, r);
  }

  /** RemoveDisplay, although it looks the room up again by ID, acts exactly when
      the handler's own Room object still has this display. */
  lemma RemovesIffHeld(s: System, c: Conn)
    requires Inv(s) && PointersOk(s) && c in s.conns && s.conns[c].pc.Removing?
    ensures
      var r := s.conns[c].pc.r;
      && (Removes(s.store, s.store.rooms[r].id, c) <==> s.store.rooms[r].display == Some(c))
      && (s.store.rooms[r].display == Some(c) ==> s.store.live[s.store.rooms[r].id] == r)
  {
    var r := s.conns[c].pc.r;
    assert RoomOk(s.store, r);
    SlotsByPc(s, c);
  }

  /** A deferred RemoveDisplay or ReleasePresenter that finds nothing to do. */
  lemma IdleCleanupKeepsInv(s: System, t: System, c: Conn, r: nat)
    requires Inv(s) && OneMoves(s, t, c) && t.store == s.store && t.preAuth == s.preAuth
    requires r < |s.store.rooms| && Free(s, c)
    requires t.conns[c].pc == Sweeping([]) || t.conns[c].pc == Closing
    requires !s.conns[c].pc.InAuth?
    ensures Inv(t)
  {
    hide Inv, OnlyGains, SlotOk, ConnOk, BondOk, GenerationOk, Free;
    InvAt(s, c, r);
    InvParts(s);
    IdleSlots(s, t, c, r);
    SameInAuth(s, t, c);
    OtherBondsStay(s, t, c, r);
    RoomStepKeepsInv(s, t, c, r);
  }

  lemma InvParts(s: System)
    requires Inv(s)
    ensures StoreOk(s.store) && PreAuthOk(s)
  {
  }

  lemma IdleSlots(s: System, t: System, c: Conn, r: nat)
    requires OneMoves(s, t, c) && t.store == s.store && r < |s.store.rooms| && Free(s, c) && SlotOk(s, r)
    requires t.conns[c].pc == Sweeping([]) || t.conns[c].pc == Closing
    ensures OnlyGains(s, t, c) && Free(t, c) && SlotOk(t, r) && ConnOk(t, c)
  {
  }

  lemma RemovingKeepsInv(s: System, c: Conn, r: nat)
    requires Inv(s) && PointersOk(s) && c in s.conns && s.conns[c].pc == Removing(r)
    ensures Inv(RemoveStep(s, c, r))
  {
    var t := RemoveStep(s, c, r);
    RemovesIffHeld(s, c);
    SlotsByPc(s, c);
    if s.store.rooms[r].display == Some(c) {
      ActiveRemovingKeepsInv(s, t, c, r);
    } else {
      assert Free(s, c);
      IdleCleanupKeepsInv(s, t, c, r);
    }
  }

  lemma ActiveRemovingKeepsInv(s: System, t: System, c: Conn, r: nat)
    requires Inv(s) && PointersOk(s) && c in s.conns && s.conns[c].pc == Removing(r) && Free(t, c)
    requires Removes(s.store, s.store.rooms[r].id, c) && s.store.live[s.store.rooms[r].id] == r
    requires t == RemoveStep(s, c, r)
    ensures Inv(t)
  {
    hide Inv, OnlyGains, Orderly, StoreOk, PreAuthOk, SlotOk, ConnOk, BondOk, GenerationOk;
    RemovalMoves(s, t, c, r);
    RemovalSlots(s, t, c, r);
    forall d | BondedTo(s, d, r) && d != c ensures BondOk(t, d) && GenerationOk(t, d) {
      RemovalBonds(s, t, c, r, d);
    }
    RoomStepKeepsInv(s, t, c, r);
  }

  lemma RemovalMoves(s: System, t: System, c: Conn, r: nat)
    requires Inv(s) && PointersOk(s) && c in s.conns && s.conns[c].pc == Removing(r) && Free(t, c)
    requires Removes(s.store, s.store.rooms[r].id, c) && s.store.live[s.store.rooms[r].id] == r
    requires t == RemoveStep(s, c, r)
    ensures OneMoves(s, t, c) && OnlyGains(s, t, c) && StoreOk(t.store) && PreAuthOk(t) && Orderly(s, t, c)
  {
    RemoveDisplayKeepsStore(s.store, s.store.rooms[r].id, c);
    SameInAuth(s, t, c);
  }

  lemma RemovalSlots(s: System, t: System, c: Conn, r: nat)
    requires Inv(s) && PointersOk(s) && c in s.conns && s.conns[c].pc == Removing(r) && Free(t, c)
    requires Removes(s.store, s.store.rooms[r].id, c) && s.store.live[s.store.rooms[r].id] == r
    requires t == RemoveStep(s, c, r) && OneMoves(s, t, c) && OnlyGains(s, t, c)
    ensures r < |t.store.rooms| && SlotOk(t, r) && ConnOk(t, c)
    ensures forall q :: 0 <= q < |s.store.rooms| && q != r ==> t.store.rooms[q] == s.store.rooms[q]
    ensures |t.store.rooms| == |s.store.rooms|
  {
    var room := s.store.rooms[r];
    assert SlotOk(s, r);
    if room.presenter.Some? {
      LoserIsSpent(s, t, c, r, room.presenter.value);
    }
  }

  lemma RemovalBonds(s: System, t: System, c: Conn, r: nat, d: Conn)
    requires Inv(s) && PointersOk(s) && c in s.conns && s.conns[c].pc == Removing(r) && Free(t, c)
    requires Removes(s.store, s.store.rooms[r].id, c) && s.store.live[s.store.rooms[r].id] == r
    requires t == RemoveStep(s, c, r) && OneMoves(s, t, c) && OnlyGains(s, t, c) && Orderly(s, t, c)
    requires BondedTo(s, d, r) && d != c
    ensures BondOk(t, d) && GenerationOk(t, d)
  {
    hide OneMoves, OnlyGains, Orderly, Free;
    BondOnChangedRoom(s, t, c, d, r);
  }

  /** c takes, keeps or gives up the presenter slot of r, moving to pc. */
  ghost predicate PresenterMove(s: System, c: Conn, r: nat, room: RoomState, pc: PC)
    requires c in s.conns && r < |s.store.rooms|
  {
    var was := s.store.rooms[r];
    var a := s.conns[c].pc;
    && Coherent(room)
    && room.id == was.id && room.display == was.display && room.generation == was.generation
    && (|| (Early(a) && was.presenter == None && room.presenter == Some(c))
        || (PresenterSlot(a) == Some(r) && was.presenter == Some(c) && room.presenter == Some(c))
        || (PresenterSlot(a) == Some(r) && was.presenter == Some(c) && room.presenter == None))
    && DisplaySlot(a) == None && DisplaySlot(pc) == None && Victims(pc) == [] && !Early(pc)
    && !a.InAuth?
    && PresenterSlot(pc) == (if room.presenter == Some(c) then Some(r) else None)
    && (PcRoom(pc).Some? ==> PcRoom(pc) == Some(r))
    && (Kept(pc).Some? ==> room.presenter == Some(c) && Kept(pc) == was.display)
    && (KeptGeneration(pc).Some? ==>
          Kept(pc).Some? && KeptGeneration(pc) == Some(was.generation) && room.sessions == map[])
  }

  lemma PresenterMoveIsOrderly(s: System, t: System, c: Conn, r: nat, room: RoomState, pc: PC)
    requires Inv(s) && c in s.conns && r < |s.store.rooms| && PresenterMove(s, c, r, room, pc)
    requires t == Goto(PutRoom(s, r, room), c, pc).(issued := t.issued)
    ensures OneMoves(s, t, c) && OnlyGains(s, t, c) && Orderly(s, t, c)
  {
    hide Coherent, Inv;
    SlotsByPc(s, c);
    if Early(s.conns[c].pc) {
    } else if room.presenter == None {
      PresenterMoveFrees(s, t, c, r, room, pc);
    } else {
      PresenterMoveStays(s, t, c, r, room, pc);
    }
  }

  lemma PresenterMoveFrees(s: System, t: System, c: Conn, r: nat, room: RoomState, pc: PC)
    requires Inv(s) && c in s.conns && r < |s.store.rooms| && PresenterMove(s, c, r, room, pc)
    requires t == Goto(PutRoom(s, r, room), c, pc).(issued := t.issued)
    requires !Early(s.conns[c].pc) && room.presenter == None
    ensures Free(t, c)
  {
    hide Coherent, Inv;
    SlotsByPc(s, c);
  }

  lemma PresenterMoveStays(s: System, t: System, c: Conn, r: nat, room: RoomState, pc: PC)
    requires c in s.conns && r < |s.store.rooms| && PresenterMove(s, c, r, room, pc)
    requires t == Goto(PutRoom(s, r, room), c, pc).(issued := t.issued)
    requires !Early(s.conns[c].pc) && room.presenter != None
    ensures SameSlots(s, t) && PresenterSlot(pc) == PresenterSlot(s.conns[c].pc)
  {
    hide Coherent;
  }

  lemma PresenterMoveSlots(s: System, t: System, c: Conn, r: nat, room: RoomState, pc: PC)
    requires Inv(s) && c in s.conns && r < |s.store.rooms| && PresenterMove(s, c, r, room, pc)
    requires t == Goto(PutRoom(s, r, room), c, pc).(issued := t.issued)
    ensures SlotOk(t, r) && ConnOk(t, c)
  {
    assert SlotOk(s, r);
  }

  lemma PresenterMoveKeepsInv(s: System, t: System, c: Conn, r: nat, room: RoomState, pc: PC)
    requires Inv(s) && c in s.conns && r < |s.store.rooms| && PresenterMove(s, c, r, room, pc)
    requires t == Goto(PutRoom(s, r, room), c, pc).(issued := t.issued)
    ensures Inv(t)
  {
    PresenterMoveIsOrderly(s, t, c, r, room, pc);
    PresenterMoveSlots(s, t, c, r, room, pc);
    RoomUpdateKeepsStore(s.store, r, room);
    SameInAuth(s, t, c);
    OtherBondsStay(s, t, c, r);
    RoomStepKeepsInv(s, t, c, r);
  }

  lemma ReleasingKeepsInv(s: System, c: Conn, r: nat)
    requires Inv(s) && PointersOk(s) && c in s.conns && s.conns[c].pc == Releasing(r)
    ensures Inv(ReleaseStep(s, c, r))
  {
    hide Inv;
    var t := ReleaseStep(s, c, r);
    var room := s.store.rooms[r];
    SlotsByPc(s, c);
    InvAt(s, c, r);
    if room.presenter != Some(c) {
      assert t.store.rooms == s.store.rooms;
      IdleCleanupKeepsInv(s, t, c, r);
    } else {
      ReleaseMoves(s, c, r);
      PresenterMoveKeepsInv(s, t, c, r, Release(room, c).0, t.conns[c].pc);
    }
  }

  lemma ReleaseMoves(s: System, c: Conn, r: nat)
    requires Inv(s) && c in s.conns && s.conns[c].pc == Releasing(r)
    requires r < |s.store.rooms| && s.store.rooms[r].presenter == Some(c)
    ensures PresenterMove(s, c, r, Release(s.store.rooms[r], c).0, ReleaseStep(s, c, r).conns[c].pc)
  {
    hide Inv;
    InvAt(s, c, r);
  }

  lemma AuthorizingKeepsInv(s: System, c: Conn, r: nat, code: string, newCode: string)
    requires Inv(s) && PointersOk(s) && c in s.conns && s.conns[c].pc == Authorizing(r, code)
    ensures Inv(AuthorizeStep(s, c, r, code, newCode))
  {
    hide Inv;
    var t := AuthorizeStep(s, c, r, code, newCode);
    var room := s.store.rooms[r];
    InvAt(s, c, r);
    if Authorizes(room, code) {
      NoSessionWithoutPresenter(room);
      AuthorizeKeepsCoherent(room, code, c, newCode);
      PresenterMoveKeepsInv(s, t, c, r, Authorize(room, code, c, newCode).0, t.conns[c].pc);
    } else {
      GotoKeepsInv(s, c, Denied(r));
    }
  }

  lemma StartIsMove(s: System, c: Conn, r: nat, d: Conn, g: nat, suffix: string)
    requires Inv(s) && PointersOk(s) && c in s.conns && s.conns[c].pc == Starting(r, d, g)
    requires Starts(s.store.rooms[r], c, g)
    ensures
      PresenterMove(s, c, r, Start(s.store.rooms[r], c, g, suffix).0, StartStep(s, c, r, d, g, suffix).conns[c].pc)
  {
    hide Inv, Coherent;
    InvAt(s, c, r);
    StartKeepsCoherent(s.store.rooms[r], c, g, suffix);
  }

  lemma StartingKeepsInv(s: System, c: Conn, r: nat, d: Conn, g: nat, suffix: string)
    requires Inv(s) && PointersOk(s) && c in s.conns && s.conns[c].pc == Starting(r, d, g)
    ensures Inv(StartStep(s, c, r, d, g, suffix))
  {
    var t := StartStep(s, c, r, d, g, suffix);
    var room := s.store.rooms[r];
    if Starts(room, c, g) {
      StartIsMove(s, c, r, d, g, suffix);
      PresenterMoveKeepsInv(s, t, c, r, Start(room, c, g, suffix).0, t.conns[c].pc);
    } else {
      TellKeepsInv(s, c, DisplayNotFound, Releasing(r));
    }
  }

  // ----- every step, every run -----

  lemma EnteringKeepsInv(s: System, c: Conn)
    requires Inv(s) && c in s.conns && s.conns[c].pc.Entering? && s.preAuth < PRE_AUTH_LIMIT
    ensures Inv(Goto(s.(preAuth := s.preAuth + 1), c, InAuth))
  {
    var t := Goto(s.(preAuth := s.preAuth + 1), c, InAuth);
    assert InAuthSet(t) == InAuthSet(s) + {c};
    InternalKeepsInv(s, t, c);
  }

  lemma LeavingInAuthKeepsInv(s: System, c: Conn, pc: PC)
    requires Inv(s) && c in s.conns && s.conns[c].pc.InAuth?
    requires pc.Registering? || pc.Rejected? || pc.Lookup? || pc.Closing?
    ensures Inv(Goto(s.(preAuth := s.preAuth - 1), c, pc))
  {
    var t := Goto(s.(preAuth := s.preAuth - 1), c, pc);
    assert InAuthSet(t) == InAuthSet(s) - {c};
    InternalKeepsInv(s, t, c);
  }

  lemma EntryStepKeepsInv(s: System, c: Conn, input: Input)
    requires Inv(s) && c in s.conns && EntryPc(s.conns[c].pc)
    ensures Inv(EntryStep(s, c, input))
  {
    hide Inv;
    var h := s.conns[c];
    match h.pc
    case LockCheck =>
      if input.ok { GotoKeepsInv(s, c, Entering); } else { TellKeepsInv(s, c, LockedOut, Closing); }
    case Entering =>
      if s.preAuth < PRE_AUTH_LIMIT {
        EnteringKeepsInv(s, c);
      } else {
        TellKeepsInv(s, c, ServerBusy, if h.kind.DisplayKind? then Rejected else Closing);
      }
    case InAuth =>
      LeavingInAuthKeepsInv(s, c,
        if h.kind.DisplayKind? then if input.ok then Registering else Rejected
        else if input.ok then Lookup(input.text) else Closing);
    case Rejected => TellKeepsInv(s, c, Unauthorized, Closing);
    case Closing =>
      ShutKeepsInv(s, c);
      GotoKeepsInv(Shut(s, c), c, Done);
    case Done =>
  }

  lemma SendGotoKeepsInv(s: System, c: Conn, d: Conn, m: Msg, pc: PC)
    requires Inv(s) && Quiet(s, c, pc)
    ensures Inv(Goto(Send(s, d, m), c, pc))
  {
    SendKeepsInv(s, d, m);
    GotoKeepsInv(Send(s, d, m), c, pc);
  }

  lemma ShutGotoKeepsInv(s: System, c: Conn, d: Conn, pc: PC)
    requires Inv(s) && Quiet(s, c, pc)
    ensures Inv(Goto(Shut(s, d), c, pc))
  {
    ShutKeepsInv(s, d);
    GotoKeepsInv(Shut(s, d), c, pc);
  }

  predicate SetupPc(pc: PC) {
    pc.Registering? || pc.Evicting? || pc.SendIce? || pc.ReadCode? || pc.SendReady?
  }

  lemma SetupStepKeepsInv(s: System, c: Conn, input: Input)
    requires Inv(s) && PointersOk(s) && c in s.conns && SetupPc(s.conns[c].pc)
    ensures Inv(DisplayStep(s, c, input))
  {
    hide Inv;
    var h := s.conns[c];
    match h.pc
    case Registering => RegisteringKeepsInv(s, c, input.text);
    case Evicting(r, victims) =>
      if victims == [] { GotoKeepsInv(s, c, SendIce(r)); }
      else { ShutGotoKeepsInv(s, c, victims[0], Evicting(r, victims[1..])); }
    case _ => PreparingKeepsInv(s, c, input);
  }

  lemma PreparingKeepsInv(s: System, c: Conn, input: Input)
    requires Inv(s) && PointersOk(s) && c in s.conns
    requires s.conns[c].pc.SendIce? || s.conns[c].pc.ReadCode? || s.conns[c].pc.SendReady?
    ensures Inv(DisplayStep(s, c, input))
  {
    hide Inv;
    var h := s.conns[c];
    match h.pc
    case SendIce(r) =>
      if input.ok && h.isOpen { TellKeepsInv(s, c, IceConfig, ReadCode(r)); }
      else { GotoKeepsInv(s, c, Removing(r)); }
    case ReadCode(r) => GotoKeepsInv(s, c, SendReady(r, s.store.rooms[r].code));
    case SendReady(r, code) =>
      if h.isOpen { SendGotoKeepsInv(s, c, c, Msg(DisplayReady, code, s.store.rooms[r].id), Serving(r)); }
      else { GotoKeepsInv(s, c, Removing(r)); }
  }

  lemma ServiceStepKeepsInv(s: System, c: Conn, input: Input)
    requires Inv(s) && PointersOk(s) && c in s.conns
    requires DisplayPc(s.conns[c].pc) && !SetupPc(s.conns[c].pc)
    ensures Inv(DisplayStep(s, c, input))
  {
    match s.conns[c].pc
    case Serving(r) => ServingKeepsInv(s, c, r, input);
    case RelayUp(r, caller, m) => SendGotoKeepsInv(s, c, caller, m, Serving(r));
    case Removing(r) => RemovingKeepsInv(s, c, r);
    case Sweeping(victims) =>
      if victims == [] { GotoKeepsInv(s, c, Closing); }
      else { ShutGotoKeepsInv(s, c, victims[0], Sweeping(victims[1..])); }
  }

  lemma ServingKeepsInv(s: System, c: Conn, r: nat, input: Input)
    requires Inv(s) && PointersOk(s) && c in s.conns && s.conns[c].pc == Serving(r)
    ensures Inv(DisplayStep(s, c, input))
  {
    if !input.ok { GotoKeepsInv(s, c, Removing(r)); }
    else if !RelayedUp(input.msg) { TellKeepsInv(s, c, UnsupportedMessage, Serving(r)); }
    else if input.msg.session !in s.store.rooms[r].sessions { TellKeepsInv(s, c, InvalidSession, Serving(r)); }
    else { GotoKeepsInv(s, c, RelayUp(r, s.store.rooms[r].sessions[input.msg.session].caller, input.msg)); }
  }

  predicate AskingPc(pc: PC) {
    pc.Lookup? || pc.CheckDisplay? || pc.Authorizing? || pc.Denied?
  }

  predicate GreetingPc(pc: PC) {
    pc.Granted? || pc.Greeting? || pc.AwaitStart? || pc.Starting?
  }

  predicate SessionPc(pc: PC) {
    pc.Announce? || pc.Confirm? || pc.Relaying? || pc.RelayDown?
  }

  lemma AskingStepKeepsInv(s: System, c: Conn, input: Input)
    requires Inv(s) && PointersOk(s) && c in s.conns && AskingPc(s.conns[c].pc)
    ensures Inv(PresenterStep(s, c, input))
  {
    hide Inv;
    var h := s.conns[c];
    match h.pc
    case Lookup(code) =>
      if h.id in s.store.live { GotoKeepsInv(s, c, CheckDisplay(s.store.live[h.id], code)); }
      else { TellKeepsInv(s, c, DisplayNotFound, Closing); }
    case CheckDisplay(r, code) =>
      if s.store.rooms[r].display.Some? { GotoKeepsInv(s, c, Authorizing(r, code)); }
      else { TellKeepsInv(s, c, DisplayNotFound, Closing); }
    case Authorizing(r, code) => AuthorizingKeepsInv(s, c, r, code, input.text);
    case Denied(r) => DeniedKeepsInv(s, c, r, input);
  }

  lemma DeniedKeepsInv(s: System, c: Conn, r: nat, input: Input)
    requires Inv(s) && PointersOk(s) && c in s.conns && s.conns[c].pc == Denied(r)
    ensures Inv(PresenterStep(s, c, input))
  {
    hide Inv;
    var room := s.store.rooms[r];
    TellKeepsInv(s, c, if room.display.Some? && room.presenter.Some? then PresenterBusy
                       else if input.ok then InvalidCode else LockedOut, Closing);
  }

  lemma GreetingKeepsInv(s: System, c: Conn, r: nat, d: Conn, g: nat, input: Input)
    requires Inv(s) && PointersOk(s) && c in s.conns && s.conns[c].pc == Greeting(r, d, g)
    ensures Inv(PresenterStep(s, c, input))
  {
    hide Inv;
    if input.ok && s.conns[c].isOpen {
      SendKeepsInv(s, c, Msg(IceConfig, "", ""));
      TellKeepsInv(Send(s, c, Msg(IceConfig, "", "")), c, AuthAccepted, AwaitStart(r, d, g));
    } else {
      GotoKeepsInv(s, c, Releasing(r));
    }
  }

  lemma GreetingStepKeepsInv(s: System, c: Conn, input: Input)
    requires Inv(s) && PointersOk(s) && c in s.conns && GreetingPc(s.conns[c].pc)
    ensures Inv(PresenterStep(s, c, input))
  {
    hide Inv, Goto, Send, Tell;
    var h := s.conns[c];
    match h.pc
    case Granted(r, d, g, code) => SendGotoKeepsInv(s, c, d, Msg(RefreshCode, "", code), Greeting(r, d, g));
    case Greeting(r, d, g) => GreetingKeepsInv(s, c, r, d, g, input);
    case AwaitStart(r, d, g) =>
      if input.ok { GotoKeepsInv(s, c, Starting(r, d, g)); }
      else { TellKeepsInv(s, c, UnsupportedMessage, Releasing(r)); }
    case Starting(r, d, g) => StartingKeepsInv(s, c, r, d, g, input.text);
  }

  lemma SessionStepKeepsInv(s: System, c: Conn, input: Input)
    requires Inv(s) && PointersOk(s) && c in s.conns && SessionPc(s.conns[c].pc)
    ensures Inv(PresenterStep(s, c, input))
  {
    match s.conns[c].pc
    case Announce(r, d, sid) => AnnounceKeepsInv(s, c, r, d, sid, input);
    case Confirm(r, d, sid) => ConfirmKeepsInv(s, c, r, d, sid, input);
    case Relaying(r, d, sid) => RelayingKeepsInv(s, c, r, d, sid, input);
    case RelayDown(r, d, sid, m) => RelayDownKeepsInv(s, c, r, d, sid, m, input);
  }

  lemma ConfirmKeepsInv(s: System, c: Conn, r: nat, d: Conn, sid: string, input: Input)
    requires Inv(s) && PointersOk(s) && c in s.conns && s.conns[c].pc == Confirm(r, d, sid)
    ensures Inv(PresenterStep(s, c, input))
  {
    hide Inv;
    if s.conns[c].isOpen { SendGotoKeepsInv(s, c, c, Msg(NewSession, sid, sid), Relaying(r, d, sid)); }
    else { GotoKeepsInv(s, c, Releasing(r)); }
  }

  lemma RelayDownKeepsInv(s: System, c: Conn, r: nat, d: Conn, sid: string, m: Msg, input: Input)
    requires Inv(s) && PointersOk(s) && c in s.conns && s.conns[c].pc == RelayDown(r, d, sid, m)
    ensures Inv(PresenterStep(s, c, input))
  {
    hide Inv;
    if Reaches(s, d) { SendGotoKeepsInv(s, c, d, m, Relaying(r, d, sid)); }
    else { GotoKeepsInv(s, c, Releasing(r)); }
  }

  lemma AnnounceKeepsInv(s: System, c: Conn, r: nat, d: Conn, sid: string, input: Input)
    requires Inv(s) && PointersOk(s) && c in s.conns && s.conns[c].pc == Announce(r, d, sid)
    ensures Inv(PresenterStep(s, c, input))
  {
    hide Inv;
    if Reaches(s, d) { SendGotoKeepsInv(s, c, d, Msg(NewSession, sid, sid), Confirm(r, d, sid)); }
    else { TellKeepsInv(s, c, DisplayNotFound, Releasing(r)); }
  }

  lemma RelayingKeepsInv(s: System, c: Conn, r: nat, d: Conn, sid: string, input: Input)
    requires Inv(s) && PointersOk(s) && c in s.conns && s.conns[c].pc == Relaying(r, d, sid)
    ensures Inv(PresenterStep(s, c, input))
  {
    hide Inv;
    if !input.ok { GotoKeepsInv(s, c, Releasing(r)); }
    else if input.msg.session != sid { TellKeepsInv(s, c, InvalidSession, Relaying(r, d, sid)); }
    else if !RelayedDown(input.msg) { TellKeepsInv(s, c, UnsupportedMessage, Relaying(r, d, sid)); }
    else { GotoKeepsInv(s, c, RelayDown(r, d, sid, input.msg)); }
  }

  lemma LeavingStepKeepsInv(s: System, c: Conn, input: Input)
    requires Inv(s) && PointersOk(s) && c in s.conns && (s.conns[c].pc.Releasing? || s.conns[c].pc.Notify?)
    ensures Inv(PresenterStep(s, c, input))
  {
    hide Inv;
    match s.conns[c].pc
    case Releasing(r) => ReleasingKeepsInv(s, c, r);
    case Notify(d, sid, code) => SendGotoKeepsInv(s, c, d, Msg(PresenterClosed, sid, code), Closing);
  }

  lemma ConnectKeepsInv(s: System, c: Conn, h: Handler)
    requires Inv(s) && c !in s.conns && (h.pc.LockCheck? || h.pc.Entering?)
    ensures Inv(s.(conns := s.conns[c := h]))
  {
    var t := s.(conns := s.conns[c := h]);
    assert InAuthSet(t) == InAuthSet(s);
    forall r | 0 <= r < |t.store.rooms| ensures SlotOk(t, r) {
      assert SlotOk(s, r);
    }
    forall d | d in t.conns ensures ConnOk(t, d) {
      if d != c {
        assert ConnOk(s, d);
        forall v | v in Victims(t.conns[d].pc) ensures Spent(t, v) {
          assert Spent(s, v);
        }
        if Kept(t.conns[d].pc).Some? && t.store.rooms[PresenterSlot(t.conns[d].pc).value].presenter != Some(d) {
          assert Spent(s, Kept(s.conns[d].pc).value);
        }
      }
    }
  }

  lemma DeliverKeepsInv(s: System, c: Conn)
    requires Inv(s) && c in s.conns
    ensures Inv(s.(conns := s.conns[c := s.conns[c].(read := s.conns[c].read + 1)]))
  {
    var t := s.(conns := s.conns[c := s.conns[c].(read := s.conns[c].read + 1)]);
    assert InAuthSet(t) == InAuthSet(s);
    InternalKeepsInv(s, t, c);
  }

  lemma HandlerKeepsInv(s: System, c: Conn, input: Input)
    requires Inv(s) && PointersOk(s) && c in s.conns
    ensures Inv(RunHandler(s, c, input))
  {
    var pc := s.conns[c].pc;
    if EntryPc(pc) {
      EntryStepKeepsInv(s, c, input);
    } else if SetupPc(pc) {
      SetupStepKeepsInv(s, c, input);
    } else if DisplayPc(pc) {
      ServiceStepKeepsInv(s, c, input);
    } else if AskingPc(pc) {
      AskingStepKeepsInv(s, c, input);
    } else if GreetingPc(pc) {
      GreetingStepKeepsInv(s, c, input);
    } else if SessionPc(pc) {
      SessionStepKeepsInv(s, c, input);
    } else {
      LeavingStepKeepsInv(s, c, input);
    }
  }

  /** The invariant is kept by every step of every handler, in any interleaving. */
  lemma StepKeepsInv(s: System, e: Event, t: System)
    requires Inv(s) && Step(s, e, t)
    ensures Inv(t)
  {
    match e
    case Connect(c, kind, id) => ConnectKeepsInv(s, c, t.conns[c]);
    case Break(c) => ShutKeepsInv(s, c);
    case Deliver(c) => DeliverKeepsInv(s, c);
    case Run(c, input) => HandlerKeepsInv(s, c, input);
  }

  /** Every state of every run satisfies the invariant. */
  lemma {:induction false} RunKeepsInv(states: seq<System>, events: seq<Event>, i: nat)
    requires IsRun(states, events) && i < |states|
    ensures Inv(states[i])
  {
    if i == 0 {
      InitialInv();
    } else {
      RunKeepsInv(states, events, i - 1);
      assert StepOf(states, events, i - 1);
      StepKeepsInv(states[i - 1], events[i - 1], states[i]);
    }
  }
}
