/** A handler whose connection is lost returns, over whole runs. */
module Exits {
  import opened Rooms
  import opened Signalling
  import opened SlotInvariant
  import opened SignallingTheorems
  import opened Writes

  /** Connection d is not opened again. */
  ghost predicate StaysClosed(s: System, t: System, d: Conn) {
    d in s.conns ==> d in t.conns && (t.conns[d].isOpen ==> s.conns[d].isOpen)
  }

  lemma StepStaysClosed(s: System, e: Event, t: System, d: Conn)
    requires Step(s, e, t)
    ensures StaysClosed(s, t, d)
  {
    hide Next, WritesOf;
    StepAppends(s, e, t, d);
  }

  /** The steps of c's own handler from i to j. */
  function OwnSteps(events: seq<Event>, i: nat, j: nat, c: Conn): nat
    requires i <= j <= |events|
  {
    if i == j then 0 else OwnSteps(events, i, j - 1, c) + if events[j - 1].Run? && events[j - 1].c == c then 1 else 0
  }

  predicate FailingStep(e: Event, c: Conn) {
    e.Run? && e.c == c ==> !e.input.ok
  }

  lemma LostStep(states: seq<System>, events: seq<Event>, k: nat, c: Conn)
    requires IsRun(states, events) && k < |events| && c in states[k].conns && !states[k].conns[c].isOpen
    requires FailingStep(events[k], c)
    ensures c in states[k + 1].conns && !states[k + 1].conns[c].isOpen
    ensures StepsToExit(states[k + 1].conns[c].pc) + OwnSteps(events, k, k + 1, c) <= StepsToExit(states[k].conns[c].pc)
  {
    hide Next, StepsToExit;
    StepAt(states, events, k);
    StepStaysClosed(states[k], events[k], states[k + 1], c);
    HandlersMoveForward(states[k], events[k], states[k + 1], c);
    if events[k].Run? && events[k].c == c {
      LostHandlersExit(states[k], events[k], states[k + 1]);
    }
  }

  lemma ExitIsNear(pc: PC)
    ensures StepsToExit(pc) <= 12 + |Victims(pc)| && (StepsToExit(pc) == 0 <==> pc.Done?)
  {
  }

  /** From any point of any run, a handler whose connection is lost, and whose own reads
      and writes therefore fail, takes at most 12 more steps of its own and one for each
      connection it still has to close; and once it has taken as many as StepsToExit says
      it has returned. What the other handlers do in between does not matter. */
  lemma {:induction false} LostHandlersReturn(states: seq<System>, events: seq<Event>, i: nat, j: nat, c: Conn)
    requires IsRun(states, events) && i <= j <= |events| && c in states[i].conns && !states[i].conns[c].isOpen
    requires forall k :: i <= k < j ==> FailingStep(events[k], c)
    ensures c in states[j].conns && !states[j].conns[c].isOpen
    ensures
      var bound := StepsToExit(states[i].conns[c].pc);
      && bound <= 12 + |Victims(states[i].conns[c].pc)|
      && StepsToExit(states[j].conns[c].pc) + OwnSteps(events, i, j, c) <= bound
      && (OwnSteps(events, i, j, c) == bound ==> states[j].conns[c].pc.Done?)
    decreases j - i
  {
    hide StepsToExit, Victims;
    ExitIsNear(states[i].conns[c].pc);
    if i < j {
      LostHandlersReturn(states, events, i, j - 1, c);
      LostStep(states, events, j - 1, c);
      assert OwnSteps(events, j - 1, j - 1, c) == 0;
    }
    ExitIsNear(states[j].conns[c].pc);
  }
}
