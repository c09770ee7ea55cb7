/** Reservations, late cleanup and verification codes over whole runs. */
module Reservations {
  import opened Wrappers
  import opened Rooms
  import opened Signalling
  import opened SlotInvariant
  import opened RoomActions
  import opened SignallingTheorems

  /** Step k performs no SetDisplay, and no RemoveDisplay that acts, on r. */
  ghost predicate Untouched(states: seq<System>, events: seq<Event>, k: nat, r: nat)
    requires IsRun(states, events) && k < |events|
  {
    StepOf(states, events, k) && !Hits(states[k], events[k], r)
  }

  /** No SetDisplay, and no RemoveDisplay that acts, on r in the steps from i to j. */
  ghost predicate NoHits(states: seq<System>, events: seq<Event>, i: nat, j: nat, r: nat)
    requires IsRun(states, events) && j <= |events|
  {
    forall k :: i <= k < j ==> Untouched(states, events, k, r)
  }

  lemma GenerationStep(states: seq<System>, events: seq<Event>, k: nat, r: nat)
    requires IsRun(states, events) && k < |events| && r < |states[k].store.rooms|
    ensures r < |states[k + 1].store.rooms|
    ensures
      var a, b := states[k].store.rooms[r], states[k + 1].store.rooms[r];
      && a.id == b.id
      && (if Untouched(states, events, k, r) then a.generation == b.generation && a.display == b.display
          else b.generation == a.generation + 1)
  {
    StepOfRun(states, events, k);
    HitsMoveGeneration(states[k], events[k], states[k + 1], r);
  }

  lemma {:induction false} GenerationCountsHits(states: seq<System>, events: seq<Event>, i: nat, j: nat, r: nat)
    requires IsRun(states, events) && i <= j < |states| && r < |states[i].store.rooms|
    ensures r < |states[j].store.rooms|
    ensures
      var a, b := states[i].store.rooms[r], states[j].store.rooms[r];
      && a.generation <= b.generation && a.id == b.id
      && (a.generation == b.generation <==> NoHits(states, events, i, j, r))
      && (NoHits(states, events, i, j, r) ==> a.display == b.display)
    decreases j - i
  {
    hide Next;
    if i < j {
      GenerationCountsHits(states, events, i, j - 1, r);
      GenerationStep(states, events, j - 1, r);
      assert NoHits(states, events, i, j, r) <==>
        NoHits(states, events, i, j - 1, r) && Untouched(states, events, j - 1, r);
    }
  }

  lemma HandlerStep(states: seq<System>, events: seq<Event>, k: nat, c: Conn)
    requires IsRun(states, events) && k < |events| && c in states[k].conns
    ensures c in states[k + 1].conns && Forward(states[k].conns[c].pc, states[k + 1].conns[c].pc)
  {
    StepAt(states, events, k);
    HandlersMoveForward(states[k], events[k], states[k + 1], c);
  }

  /** What a handler remembers, once past registration, is what it first stored. */
  lemma {:induction false} HandlerOverTime(states: seq<System>, events: seq<Event>, i: nat, j: nat, c: Conn)
    requires IsRun(states, events) && i <= j < |states|
    requires c in states[i].conns && !Early(states[i].conns[c].pc)
    ensures c in states[j].conns && Forward(states[i].conns[c].pc, states[j].conns[c].pc)
    decreases j - i
  {
    if i < j {
      HandlerOverTime(states, events, i, j - 1, c);
      HandlerStep(states, events, j - 1, c);
    }
  }

  lemma GrantSets(s: System, e: Event, t: System, c: Conn, r: nat)
    requires Step(s, e, t) && Grants(s, e, c, r)
    ensures
      var room := s.store.rooms[r];
      && c in t.conns
      && t.conns[c].pc == Granted(r, room.display.value, room.generation, e.input.text)
      && t.store.rooms == s.store.rooms[r := room.(presenter := Some(c), code := e.input.text)]
      && t.issued == s.issued + [Issue(r, e.input.text)]
      && s.conns[c].pc.Authorizing? && t.conns == s.conns[c := s.conns[c].(pc := t.conns[c].pc)]
  {
  }

  /** When a handler reaches StartSession, the session opens exactly if no display
      was set on or removed from its Room object since the slot was granted, and it
      then joins the presenter to the very display the handler kept. Generations of
      other Room objects under the same ID play no part. */
  lemma ReservationFidelity(states: seq<System>, events: seq<Event>, i: nat, j: nat, c: Conn, r: nat)
    requires IsRun(states, events) && i < j < |events|
    requires Step(states[i], events[i], states[i + 1]) && Grants(states[i], events[i], c, r)
    requires Step(states[j], events[j], states[j + 1])
    requires events[j].Run? && events[j].c == c && states[j].conns[c].pc.Starting?
    ensures
      var pc := states[j].conns[c].pc;
      && pc.r == r && r < |states[j].store.rooms|
      && (Starts(states[j].store.rooms[r], c, pc.gen) <==> NoHits(states, events, i, j, r))
      && (states[j + 1].conns[c].pc.Announce? <==> NoHits(states, events, i, j, r))
    ensures states[j + 1].conns[c].pc.Announce? ==>
      var sid := states[j + 1].conns[c].pc.sid;
      var d := states[i].store.rooms[r].display.value;
      && states[j + 1].conns[c].pc.display == d
      && states[j + 1].store.rooms[r].display == Some(d)
      && states[j + 1].store.rooms[r].sessions == map[sid := Session(sid, c, d)]
  {
    GrantSets(states[i], events[i], states[i + 1], c, r);
    HandlerOverTime(states, events, i + 1, j, c);
    GenerationCountsHits(states, events, i, j, r);
    RunKeepsInv(states, events, j);
    assert ConnOk(states[j], c);
    assert RoomOk(states[j].store, r);
    var pc := states[j].conns[c].pc;
    StartOpens(states[j], events[j], states[j + 1], c, r, pc.display, pc.gen);
  }

  lemma StartOpens(s: System, e: Event, t: System, c: Conn, r: nat, d: Conn, g: nat)
    requires Step(s, e, t) && e.Run? && e.c == c && s.conns[c].pc == Starting(r, d, g)
    requires s.store.rooms[r].presenter == Some(c) ==> s.store.rooms[r].sessions == map[]
    ensures t.conns[c].pc.Announce? <==> Starts(s.store.rooms[r], c, g)
    ensures t.conns[c].pc.Announce? ==>
      var sid := t.conns[c].pc.sid;
      && t.conns[c].pc.display == d && s.store.rooms[r].display.Some?
      && t.store.rooms[r] == s.store.rooms[r].(sessions := map[sid := Session(sid, c, s.store.rooms[r].display.value)])
  {
  }

  // ----- registration and its late cleanup -----

  ghost predicate Registers(s: System, e: Event, c: Conn) {
    e.Run? && e.c == c && c in s.conns && s.conns[c].pc.Registering?
  }

  /** The step of SetDisplay, and the Room object it attached c to. */
  lemma RegisterSets(s: System, e: Event, t: System, c: Conn)
    requires Inv(s) && Step(s, e, t) && Registers(s, e, c)
    ensures c in t.conns && DisplaySlot(t.conns[c].pc).Some?
    ensures
      var r := DisplaySlot(t.conns[c].pc).value;
      r < |t.store.rooms| && t.store.rooms[r].display == Some(c)
  {
  }

  /** The deferred RemoveDisplay of a display removes its room exactly if no other
      display has been set on its Room object since; it never touches another. */
  lemma CleanupActsIffNotReplaced(states: seq<System>, events: seq<Event>, i: nat, j: nat, c: Conn, r: nat)
    requires IsRun(states, events) && i < j < |events|
    requires Step(states[i], events[i], states[i + 1]) && Registers(states[i], events[i], c)
    requires DisplaySlot(states[i + 1].conns[c].pc) == Some(r)
    requires Step(states[j], events[j], states[j + 1])
    requires events[j].Run? && events[j].c == c && states[j].conns[c].pc.Removing?
    ensures states[j].conns[c].pc == Removing(r) && r < |states[j].store.rooms|
    ensures states[j + 1].store != states[j].store <==> NoHits(states, events, i + 1, j, r)
    ensures NoHits(states, events, i + 1, j, r) ==> states[j + 1].store.rooms[r].display.None?
  {
    hide Next;
    StepOfRun(states, events, i);
    RegisterSets(states[i], events[i], states[i + 1], c);
    HandlerOverTime(states, events, i + 1, j, c);
    GenerationCountsHits(states, events, i + 1, j, r);
    RunKeepsInv(states, events, j);
    if NoHits(states, events, i + 1, j, r) {
      CleanupOfHolder(states[j], events[j], states[j + 1], c, r);
    } else {
      SomeHitLeavesSpent(states, events, i + 1, j, c, r);
      LateCleanupIsHarmless(states[j], events[j], states[j + 1]);
    }
  }

  lemma SomeHitLeavesSpent(states: seq<System>, events: seq<Event>, i: nat, j: nat, c: Conn, r: nat)
    requires IsRun(states, events) && i <= j <= |events| && r < |states[i].store.rooms|
    requires states[i].store.rooms[r].display == Some(c) && !NoHits(states, events, i, j, r)
    ensures Spent(states[j], c)
  {
    var k :| i <= k < j && !Untouched(states, events, k, r);
    StepAt(states, events, k);
    HitLeavesSpent(states, events, i, k, j, c, r);
  }

  lemma CleanupOfHolder(s: System, e: Event, t: System, c: Conn, r: nat)
    requires Inv(s) && Step(s, e, t) && e.Run? && e.c == c && s.conns[c].pc == Removing(r)
    requires s.store.rooms[r].display == Some(c)
    ensures t.store != s.store && t.store.rooms[r].display.None?
  {
    RemovesIffHeld(s, c);
    assert t.store.rooms[r] == Detach(s.store.rooms[r]);
  }

  /** Whichever hit comes first, the display it dislodges is spent for good. */
  lemma HitLeavesSpent(states: seq<System>, events: seq<Event>, i: nat, k: nat, j: nat, c: Conn, r: nat)
    requires IsRun(states, events) && i <= k < j < |states| && r < |states[i].store.rooms|
    requires states[i].store.rooms[r].display == Some(c)
    requires Step(states[k], events[k], states[k + 1]) && Hits(states[k], events[k], r)
    ensures Spent(states[j], c)
    decreases k - i
  {
    hide Next;
    StepOfRun(states, events, i);
    HitsMoveGeneration(states[i], events[i], states[i + 1], r);
    if Hits(states[i], events[i], r) {
      HitDislodges(states[i], events[i], states[i + 1], c, r);
      SpentForever(states, events, i + 1, j, c);
    } else {
      HitLeavesSpent(states, events, i + 1, k, j, c, r);
    }
  }

  lemma HitDislodges(s: System, e: Event, t: System, c: Conn, r: nat)
    requires Inv(s) && Step(s, e, t) && r < |s.store.rooms| && s.store.rooms[r].display == Some(c)
    requires Hits(s, e, r)
    ensures Spent(t, c)
  {
    hide Next;
    assert SlotOk(s, r);
    SlotsByPc(s, c);
    OneKindOfSlot(s.conns[c].pc);
    HandlersMoveForward(s, e, t, c);
    StepPerforms(s, e, t);
  }

  // ----- verification codes -----

  /** The index of the latest code issued for r, or -1. */
  function Latest(issued: seq<Issue>, r: nat): (k: int)
    ensures -1 <= k < |issued|
    ensures k >= 0 ==> issued[k].room == r
    ensures forall j :: k < j < |issued| ==> issued[j].room != r
  {
    if issued == [] then -1
    else if issued[|issued| - 1].room == r then |issued| - 1
    else Latest(issued[..|issued| - 1], r)
  }

  lemma LatestAfterIssue(issued: seq<Issue>, q: nat, code: string, r: nat)
    ensures Latest(issued + [Issue(q, code)], r) == if q == r then |issued| else Latest(issued, r)
  {
    assert (issued + [Issue(q, code)])[..|issued|] == issued;
  }

  /** The code a Room object accepts is the latest one issued for it. */
  ghost predicate CodesAreLatest(s: System) {
    forall r :: 0 <= r < |s.store.rooms| ==> CodeIsLatest(s, r)
  }

  ghost predicate CodeIsLatest(s: System, r: nat)
    requires r < |s.store.rooms|
  {
    Latest(s.issued, r) >= 0 && s.issued[Latest(s.issued, r)].code == s.store.rooms[r].code
  }

  /** The code a step issues, if it issues one. */
  ghost function IssueOf(s: System, e: Event): Option<Issue>
    requires PointersOk(s) && Enabled(s, e)
  {
    Issued(s.store, ActionOf(s, e))
  }

  /** The code that an operation draws, and for which room. */
  function Issued(st: Store, a: Action): Option<Issue>
    requires LiveIndexOk(st) && (a.Asks? ==> a.r < |st.rooms|)
  {
    match a
    case Sets(c, id, newCode) => Some(Issue(SetDisplay(st, id, c, newCode).room, newCode))
    case Asks(c, r, code, newCode) => if Authorizes(st.rooms[r], code) then Some(Issue(r, newCode)) else None
    case _ => None
  }

  lemma StepIssues(s: System, e: Event, t: System)
    requires Step(s, e, t)
    ensures t.issued == match IssueOf(s, e) case Some(x) => s.issued + [x] case None => s.issued
  {
    if ActionOf(s, e).NoAction? {
      NoActionKeepsStore(s, e, t);
    }
  }

  lemma StepKeepsCodesLatest(s: System, e: Event, t: System)
    requires Inv(s) && Step(s, e, t) && CodesAreLatest(s)
    ensures CodesAreLatest(t)
  {
    StepIssues(s, e, t);
    forall r | 0 <= r < |t.store.rooms| ensures CodeIsLatest(t, r) {
      if IssueOf(s, e).Some? {
        LatestAfterIssue(s.issued, IssueOf(s, e).value.room, IssueOf(s, e).value.code, r);
      }
      CodeMovesWithIssue(s, e, t, r);
      if r < |s.store.rooms| {
        assert CodeIsLatest(s, r);
      }
    }
  }

  lemma CodeMovesWithIssue(s: System, e: Event, t: System, r: nat)
    requires Inv(s) && Step(s, e, t) && r < |t.store.rooms|
    ensures r >= |s.store.rooms| ==> IssueOf(s, e).Some? && IssueOf(s, e).value.room == r
    ensures t.store.rooms[r].code ==
      if IssueOf(s, e).Some? && IssueOf(s, e).value.room == r then IssueOf(s, e).value.code
      else s.store.rooms[r].code
  {
    hide Next, Perform;
    StepPerforms(s, e, t);
    PerformMovesCode(s.store, ActionOf(s, e), r);
  }

  lemma PerformMovesCode(st: Store, a: Action, r: nat)
    requires LiveIndexOk(st) && ((a.Asks? || a.Opens? || a.Frees?) ==> a.r < |st.rooms|)
    requires r < |Perform(st, a).rooms|
    ensures
      var x := Issued(st, a);
      && (r >= |st.rooms| ==> x.Some? && x.value.room == r)
      && Perform(st, a).rooms[r].code == if x.Some? && x.value.room == r then x.value.code else st.rooms[r].code
  {
  }

  lemma {:induction false} RunKeepsCodesLatest(states: seq<System>, events: seq<Event>, i: nat)
    requires IsRun(states, events) && i < |states|
    ensures CodesAreLatest(states[i])
  {
    if i > 0 {
      RunKeepsCodesLatest(states, events, i - 1);
      StepOfRun(states, events, i - 1);
      StepKeepsCodesLatest(states[i - 1], events[i - 1], states[i]);
    }
  }

  /** The number of the issue that a grant at step i consumes. */
  ghost function Consumed(states: seq<System>, events: seq<Event>, i: nat, r: nat): int
    requires i < |states|
  {
    Latest(states[i].issued, r)
  }

  lemma {:induction false} IssuesOnlyGrow(states: seq<System>, events: seq<Event>, i: nat, j: nat)
    requires IsRun(states, events) && i <= j < |states|
    ensures states[i].issued <= states[j].issued
    decreases j - i
  {
    if i < j {
      IssuesOnlyGrow(states, events, i, j - 1);
      StepOfRun(states, events, j - 1);
      StepIssues(states[j - 1], events[j - 1], states[j]);
    }
  }

  /** A grant consumes the latest issue for its room, and draws the next. */
  lemma GrantConsumes(states: seq<System>, events: seq<Event>, i: nat, c: Conn, q: nat)
    requires IsRun(states, events) && i < |events|
    requires Step(states[i], events[i], states[i + 1]) && Grants(states[i], events[i], c, q)
    ensures
      var k := Consumed(states, events, i, q);
      && 0 <= k < |states[i].issued|
      && states[i].issued[k] == Issue(q, ActionOf(states[i], events[i]).code)
      && |states[i].issued| < |states[i + 1].issued| && states[i + 1].issued[|states[i].issued|].room == q
  {
    hide Next;
    RunKeepsCodesLatest(states, events, i);
    RunKeepsInv(states, events, i);
    assert CodeIsLatest(states[i], q);
    GrantSets(states[i], events[i], states[i + 1], c, q);
  }

  /** Every grant consumes the latest issue for its room: the submitted code is that
      issue's code. Two grants never consume the same issue. */
  lemma CodesAreConsumedOnce(
      states: seq<System>, events: seq<Event>, i: nat, j: nat, c: Conn, q: nat, d: Conn, r: nat)
    requires IsRun(states, events) && i < j < |events|
    requires Step(states[i], events[i], states[i + 1]) && Grants(states[i], events[i], c, q)
    requires Step(states[j], events[j], states[j + 1]) && Grants(states[j], events[j], d, r)
    ensures 0 <= Consumed(states, events, i, q) < |states[j].issued|
    ensures 0 <= Consumed(states, events, j, r) < |states[j].issued|
    ensures states[j].issued[Consumed(states, events, i, q)] == Issue(q, ActionOf(states[i], events[i]).code)
    ensures states[j].issued[Consumed(states, events, j, r)] == Issue(r, ActionOf(states[j], events[j]).code)
    ensures Consumed(states, events, i, q) != Consumed(states, events, j, r)
  {
    hide Next, Grants;
    GrantConsumes(states, events, i, c, q);
    GrantConsumes(states, events, j, d, r);
    IssuesOnlyGrow(states, events, i, i + 1);
    IssuesOnlyGrow(states, events, i + 1, j);
    assert states[j].issued[|states[i].issued|].room == q;
  }

  /** If no code is drawn twice, a code authorizes at most once in a whole run. */
  lemma FreshCodesAuthorizeOnce(
      states: seq<System>, events: seq<Event>, i: nat, j: nat, c: Conn, q: nat, d: Conn, r: nat)
    requires IsRun(states, events) && i < j < |events|
    requires Step(states[i], events[i], states[i + 1]) && Grants(states[i], events[i], c, q)
    requires Step(states[j], events[j], states[j + 1]) && Grants(states[j], events[j], d, r)
    requires forall a, b :: 0 <= a < b < |states[j].issued| ==> states[j].issued[a].code != states[j].issued[b].code
    ensures ActionOf(states[i], events[i]).code != ActionOf(states[j], events[j]).code
  {
    CodesAreConsumedOnce(states, events, i, j, c, q, d, r);
  }

  /** Grants and registrations among the first n steps. */
  ghost function Grantings(states: seq<System>, events: seq<Event>, n: nat): nat
    requires IsRun(states, events) && n <= |events|
  {
    if n == 0 then 0
    else
      assert StepOf(states, events, n - 1);
      Grantings(states, events, n - 1) + if GrantStep(states[n - 1], events[n - 1]) then 1 else 0
  }

  ghost function Registrations(states: seq<System>, events: seq<Event>, n: nat): nat
    requires IsRun(states, events) && n <= |events|
  {
    if n == 0 then 0
    else
      assert StepOf(states, events, n - 1);
      Registrations(states, events, n - 1) + if ActionOf(states[n - 1], events[n - 1]).Sets? then 1 else 0
  }

  /** Every code issued is accounted for; so grants never outnumber issues, and the
      difference is the number of displays that ever registered. */
  lemma {:induction false} IssuesAreCounted(states: seq<System>, events: seq<Event>, n: nat)
    requires IsRun(states, events) && n <= |events|
    ensures |states[n].issued| == Grantings(states, events, n) + Registrations(states, events, n)
  {
    if n > 0 {
      IssuesAreCounted(states, events, n - 1);
      StepOfRun(states, events, n - 1);
      StepIssues(states[n - 1], events[n - 1], states[n]);
    }
  }
}
