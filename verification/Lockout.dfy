/** The failed-code lockout table of core/signal.go: locked, authFailed and
    authSucceeded over a map that is pruned lazily. */
module Lockout {
  import opened Wrappers

  /** Instants on the server's clock. */
  type Time = int

  /** The limits that Config.Validate accepts: at least one failure, a positive lockout. */
  datatype LimitsValue = Limits(maxFailed: nat, lockout: nat)

  type Limits = l: LimitsValue | l.maxFailed >= 1 && l.lockout >= 1 witness Limits(1, 1)

  /** authState; the zero time of lockedUntil is None. */
  datatype AuthState = AuthState(failures: nat, lockedUntil: Option<Time>, updatedAt: Time)

  datatype Table = Table(auth: map<string, AuthState>, lastCleanup: Option<Time>)

  const EMPTY := Table(map[], None)

  function Pruned(auth: map<string, AuthState>, now: Time, l: Limits): map<string, AuthState> {
    map k | k in auth && now - auth[k].updatedAt < 2 * l.lockout :: auth[k]
  }

  predicate CleanupDue(t: Table, now: Time, l: Limits) {
    t.lastCleanup.None? || now - t.lastCleanup.value >= l.lockout
  }

  function Cleaned(t: Table, now: Time, l: Limits): Table {
    if CleanupDue(t, now, l) then Table(Pruned(t.auth, now, l), Some(now)) else t
  }

  /** The entry after one more failure; an expired lock starts over. */
  function Counted(entry: Option<AuthState>, now: Time, l: Limits): AuthState {
    var expired := entry.Some? && entry.value.lockedUntil.Some? && now >= entry.value.lockedUntil.value;
    var s := if entry.None? || expired then AuthState(0, None, now) else entry.value;
    AuthState(s.failures + 1,
              if s.failures + 1 >= l.maxFailed then Some(now + l.lockout) else s.lockedUntil,
              now)
  }

  function Entry(auth: map<string, AuthState>, key: string): Option<AuthState> {
    if key in auth then Some(auth[key]) else None
  }

  function Fail(t: Table, key: string, now: Time, l: Limits): (Table, bool) {
    var t1 := Cleaned(t, now, l);
    var s := Counted(Entry(t1.auth, key), now, l);
    (t1.(auth := t1.auth[key := s]), s.lockedUntil.Some?)
  }

  function Succeed(t: Table, key: string): Table {
    t.(auth := t.auth - {key})
  }

  predicate LockedEntry(entry: Option<AuthState>, now: Time) {
    entry.Some? && entry.value.lockedUntil.Some? && now < entry.value.lockedUntil.value
  }

  predicate Locked(t: Table, key: string, now: Time) {
    LockedEntry(Entry(t.auth, key), now)
  }

  // ----- the Go code -----

  /** The part of App that the three functions share under authMu. */
  class AuthTable {
    const limits: Limits
    var auth: map<string, AuthState>
    var lastAuthCleanup: Option<Time>

    function State(): Table
      reads this
    {
      Table(auth, lastAuthCleanup)
    }

    constructor (limits: Limits)
      ensures State() == EMPTY && this.limits == limits
    {
      this.limits := limits;
      auth, lastAuthCleanup := map[], None;
    }

    method IsLocked(key: string, now: Time) returns (yes: bool)
      ensures yes <==> Locked(State(), key, now)
    {
      if key !in auth {
        return false;
      }
      var s := auth[key];
      return s.lockedUntil.Some? && now < s.lockedUntil.value;
    }

    /** The pruning loop. */
    method DropExpired(now: Time)
      modifies this`auth
      ensures auth == Pruned(old(auth), now, limits)
    {
      var todo := auth.Keys;
      while todo != {}
        invariant todo <= auth.Keys <= old(auth).Keys
        invariant forall k :: k in auth ==> auth[k] == old(auth)[k]
        invariant forall k :: k in old(auth) && k !in todo ==>
            (k in auth <==> now - old(auth)[k].updatedAt < 2 * limits.lockout)
        decreases todo
      {
        var k :| k in todo;
        if now - auth[k].updatedAt >= 2 * limits.lockout {
          auth := auth - {k};
        }
        todo := todo - {k};
      }
    }

    method AuthFailed(key: string, now: Time) returns (lockedOut: bool)
      modifies this
      ensures (State(), lockedOut) == Fail(old(State()), key, now, limits)
    {
      if lastAuthCleanup.None? || now - lastAuthCleanup.value >= limits.lockout {
        DropExpired(now);
        lastAuthCleanup := Some(now);
      }
      var s := if key in auth then auth[key] else AuthState(0, None, now);
      if s.lockedUntil.Some? && now >= s.lockedUntil.value {
        s := AuthState(0, None, now);
      }
      s := s.(failures := s.failures + 1, updatedAt := now);
      if s.failures >= limits.maxFailed {
        s := s.(lockedUntil := Some(now + limits.lockout));
      }
      auth := auth[key := s];
      return s.lockedUntil.Some?;
    }

    method AuthSucceeded(key: string)
      modifies this
      ensures State() == Succeed(old(State()), key)
    {
      auth := auth - {key};
    }
  }

  // ----- histories -----

  datatype Attempt = Failed(key: string, at: Time) | Succeeded(key: string, at: Time)

  function Apply(t: Table, a: Attempt, l: Limits): Table {
    match a
    case Failed(key, at) => Fail(t, key, at, l).0
    case Succeeded(key, _) => Succeed(t, key)
  }

  /** The table after these attempts. */
  function After(h: seq<Attempt>, l: Limits): Table {
    if h == [] then EMPTY else Apply(After(h[..|h| - 1], l), h[|h| - 1], l)
  }

  /** The clock never goes back, up to the instant now. */
  ghost predicate Clocked(h: seq<Attempt>, now: Time) {
    && (forall i, j :: 0 <= i < j < |h| ==> h[i].at <= h[j].at)
    && (forall i :: 0 <= i < |h| ==> h[i].at <= now)
  }

  /** What authFailed answered at step i, a failure. */
  predicate Answer(h: seq<Attempt>, i: nat, l: Limits)
    requires i < |h|
  {
    h[i].Failed? && Fail(After(h[..i], l), h[i].key, h[i].at, l).1
  }

  /** The last attempt that concerned key, or -1. */
  function LastOf(h: seq<Attempt>, key: string): (i: int)
    ensures -1 <= i < |h|
    ensures i >= 0 ==> h[i].key == key
    ensures forall j :: i < j < |h| ==> h[j].key != key
  {
    if h == [] then -1
    else if h[|h| - 1].key == key then |h| - 1
    else LastOf(h[..|h| - 1], key)
  }

  // ----- every reachable table -----

  /** An entry is locked exactly when it has enough failures, and then until one
      lockout after its last failure. */
  ghost predicate EntryOk(s: AuthState, l: Limits) {
    && s.failures >= 1
    && (s.lockedUntil.Some? <==> s.failures >= l.maxFailed)
    && (s.lockedUntil.Some? ==> s.lockedUntil.value == s.updatedAt + l.lockout)
  }

  ghost predicate TableOk(t: Table, now: Time, l: Limits) {
    && (forall k :: k in t.auth ==> EntryOk(t.auth[k], l) && t.auth[k].updatedAt <= now)
    && (t.lastCleanup.Some? ==> t.lastCleanup.value <= now)
    && (t.lastCleanup.None? ==> t.auth == map[])
    && (forall k :: k in t.auth ==> t.lastCleanup.value - t.auth[k].updatedAt < 2 * l.lockout)
  }

  lemma {:induction false} ReachableTablesOk(h: seq<Attempt>, now: Time, l: Limits)
    requires Clocked(h, now)
    ensures TableOk(After(h, l), now, l)
  {
    if h != [] {
      var last := h[|h| - 1];
      ReachableTablesOk(h[..|h| - 1], last.at, l);
      ApplyKeepsOk(After(h[..|h| - 1], l), last, l);
    }
  }

  lemma ApplyKeepsOk(t: Table, a: Attempt, l: Limits)
    requires TableOk(t, a.at, l)
    ensures TableOk(Apply(t, a, l), a.at, l)
  {
  }

  /** Pruning drops no live lock: an entry it drops is long past its lock. */
  lemma PruningDropsNoLiveLock(h: seq<Attempt>, now: Time, l: Limits, key: string)
    requires Clocked(h, now)
    ensures Locked(Table(Pruned(After(h, l).auth, now, l), Some(now)), key, now) <==> Locked(After(h, l), key, now)
    ensures key in After(h, l).auth && key !in Pruned(After(h, l).auth, now, l) ==>
              !Locked(After(h, l), key, now - l.lockout)
  {
    ReachableTablesOk(h, now, l);
  }

  /** After a failure at time now, every entry is younger than three lockouts: the two
      of the expiry and the one between two prunings. */
  lemma EntriesAreYoung(h: seq<Attempt>, l: Limits, key: string)
    requires h != [] && h[|h| - 1].Failed? && Clocked(h, h[|h| - 1].at)
    requires key in After(h, l).auth
    ensures 0 <= h[|h| - 1].at - After(h, l).auth[key].updatedAt < 3 * l.lockout
  {
    ReachableTablesOk(h, h[|h| - 1].at, l);
    ReachableTablesOk(h[..|h| - 1], h[|h| - 1].at, l);
  }

  /** Every entry was last updated by the last attempt on its key, a failure. */
  lemma {:induction false} EntryIsLastFailure(h: seq<Attempt>, l: Limits, key: string)
    requires key in After(h, l).auth
    ensures LastOf(h, key) >= 0 && h[LastOf(h, key)].Failed?
    ensures h[LastOf(h, key)].at == After(h, l).auth[key].updatedAt
  {
    var init := h[..|h| - 1];
    if h[|h| - 1].key != key {
      EntryIsLastFailure(init, l, key);
    }
  }

  /** The failures of the last three lockouts, by position in the history. */
  function RecentFailures(h: seq<Attempt>, now: Time, l: Limits): set<nat> {
    set i: nat | i < |h| && h[i].Failed? && now - h[i].at < 3 * l.lockout
  }

  lemma {:induction false} InjectionBounds(keys: set<string>, indices: set<nat>, h: seq<Attempt>)
    requires forall k :: k in keys ==> LastOf(h, k) >= 0 && LastOf(h, k) in indices
    ensures |keys| <= |indices|
    decreases keys
  {
    if keys != {} {
      var k :| k in keys;
      InjectionBounds(keys - {k}, indices - {LastOf(h, k)}, h);
    }
  }

  /** The table never outgrows the number of recent failures. */
  lemma TableIsBounded(h: seq<Attempt>, l: Limits)
    requires h != [] && h[|h| - 1].Failed? && Clocked(h, h[|h| - 1].at)
    ensures |After(h, l).auth| <= |RecentFailures(h, h[|h| - 1].at, l)|
  {
    var now := h[|h| - 1].at;
    forall k | k in After(h, l).auth
      ensures LastOf(h, k) >= 0 && LastOf(h, k) in RecentFailures(h, now, l)
    {
      EntriesAreYoung(h, l, k);
      EntryIsLastFailure(h, l, k);
    }
    InjectionBounds(After(h, l).auth.Keys, RecentFailures(h, now, l), h);
  }

  // ----- exactly when a key is locked -----

  /** What the history says about key's entry: present since its last failure, or
      pruned at least two lockouts after it; absent if there is nothing to remember. */
  lemma {:induction false} EntryFollowsHistory(h: seq<Attempt>, now: Time, l: Limits, key: string)
    requires Clocked(h, now)
    ensures
      var i := LastOf(h, key);
      var entry := Entry(After(h, l).auth, key);
      if i >= 0 && h[i].Failed? then
        if entry.Some? then entry.value.updatedAt == h[i].at && (entry.value.lockedUntil.Some? <==> Answer(h, i, l))
        else now - h[i].at >= 2 * l.lockout
      else entry.None?
  {
    if h != [] {
      var init, last := h[..|h| - 1], h[|h| - 1];
      EntryFollowsHistory(init, last.at, l, key);
      if last.key != key {
        var i := LastOf(init, key);
        if i >= 0 {
          assert init[..i] == h[..i];
        }
      }
    }
  }

  /** A key is locked at time now exactly if the last thing that happened to it was a
      failure that was answered with the lockout, less than one lockout ago; whatever
      happened to other keys, and however the table was pruned. */
  lemma LockedExactly(h: seq<Attempt>, now: Time, l: Limits, key: string)
    requires Clocked(h, now)
    ensures Locked(After(h, l), key, now) <==>
      var i := LastOf(h, key);
      i >= 0 && h[i].Failed? && Answer(h, i, l) && now < h[i].at + l.lockout
  {
    EntryFollowsHistory(h, now, l, key);
    ReachableTablesOk(h, now, l);
  }

  /** authFailed answers what locked would say at that instant. */
  lemma AnswerIsLocked(h: seq<Attempt>, l: Limits)
    requires h != [] && h[|h| - 1].Failed? && Clocked(h, h[|h| - 1].at)
    ensures Answer(h, |h| - 1, l) <==> Locked(After(h, l), h[|h| - 1].key, h[|h| - 1].at)
  {
    var n := |h| - 1;
    assert h[..n] == h[..|h| - 1];
    LockedExactly(h, h[n].at, l, h[n].key);
  }

  // ----- the unpruned reference -----

  function RefApply(auth: map<string, AuthState>, a: Attempt, l: Limits): map<string, AuthState> {
    match a
    case Failed(key, at) => auth[key := Counted(Entry(auth, key), at, l)]
    case Succeeded(key, _) => auth - {key}
  }

  /** The same table without any pruning. */
  function RefAfter(h: seq<Attempt>, l: Limits): map<string, AuthState> {
    if h == [] then map[] else RefApply(RefAfter(h[..|h| - 1], l), h[|h| - 1], l)
  }

  predicate RefAnswer(h: seq<Attempt>, i: nat, l: Limits)
    requires i < |h|
  {
    h[i].Failed? && Counted(Entry(RefAfter(h[..i], l), h[i].key), h[i].at, l).lockedUntil.Some?
  }

  /** No two successive failures of key, without a success between them, are two
      lockouts or more apart. */
  ghost predicate SteadyFailures(h: seq<Attempt>, key: string, l: Limits) {
    forall j :: 0 <= j < |h| ==> SteadyAt(h, j, key, l)
  }

  ghost predicate SteadyAt(h: seq<Attempt>, j: nat, key: string, l: Limits)
    requires j < |h|
  {
    h[j].Failed? && h[j].key == key ==>
      var i := LastOf(h[..j], key);
      i >= 0 && h[i].Failed? ==> h[j].at - h[i].at < 2 * l.lockout
  }

  lemma SteadyPrefix(h: seq<Attempt>, n: nat, key: string, l: Limits)
    requires SteadyFailures(h, key, l) && n <= |h|
    ensures SteadyFailures(h[..n], key, l)
  {
    forall j | 0 <= j < n ensures SteadyAt(h[..n], j, key, l) {
      assert SteadyAt(h, j, key, l);
      assert h[..n][..j] == h[..j];
    }
  }

  lemma {:induction false} RefEntryIsLastFailure(h: seq<Attempt>, l: Limits, key: string)
    ensures key in RefAfter(h, l) <==> LastOf(h, key) >= 0 && h[LastOf(h, key)].Failed?
    ensures key in RefAfter(h, l) ==> RefAfter(h, l)[key].updatedAt == h[LastOf(h, key)].at
  {
    if h != [] {
      RefEntryIsLastFailure(h[..|h| - 1], l, key);
    }
  }

  /** The two tables hold the same entry for key, unless the pruned one has dropped it
      and it is two lockouts old. */
  lemma {:induction false} TablesInStep(h: seq<Attempt>, now: Time, l: Limits, key: string)
    requires Clocked(h, now) && SteadyFailures(h, key, l)
    ensures InStep(Entry(After(h, l).auth, key), Entry(RefAfter(h, l), key), now, l)
  {
    hide Apply, RefApply;
    if h != [] {
      var n := |h| - 1;
      SteadyPrefix(h, n, key, l);
      TablesInStep(h[..n], h[n].at, l, key);
      RefEntryIsLastFailure(h[..n], l, key);
      assert SteadyAt(h, n, key, l);
      StaysInStep(After(h[..n], l), RefAfter(h[..n], l), h[n], now, l, key);
    }
  }

  predicate InStep(entry: Option<AuthState>, ref: Option<AuthState>, now: Time, l: Limits) {
    entry == ref || (entry.None? && ref.Some? && now - ref.value.updatedAt >= 2 * l.lockout)
  }

  lemma StaysInStep(t: Table, ref: map<string, AuthState>, a: Attempt, now: Time, l: Limits, key: string)
    requires InStep(Entry(t.auth, key), Entry(ref, key), a.at, l) && a.at <= now
    requires a.Failed? && a.key == key && key in ref ==> a.at - ref[key].updatedAt < 2 * l.lockout
    ensures InStep(Entry(Apply(t, a, l).auth, key), Entry(RefApply(ref, a, l), key), now, l)
  {
  }

  lemma {:induction false} RefEntriesOk(h: seq<Attempt>, now: Time, l: Limits, key: string)
    requires Clocked(h, now) && key in RefAfter(h, l)
    ensures EntryOk(RefAfter(h, l)[key], l) && RefAfter(h, l)[key].updatedAt <= now
  {
    var n := |h| - 1;
    if key in RefAfter(h[..n], l) {
      RefEntriesOk(h[..n], h[n].at, l, key);
    }
  }

  /** As long as a key's own failures are steady, pruning is invisible to it: locked
      and authFailed answer as the unpruned table would, whatever other keys do. */
  lemma PruningIsInvisible(h: seq<Attempt>, now: Time, l: Limits, key: string)
    requires Clocked(h, now) && SteadyFailures(h, key, l)
    ensures Locked(After(h, l), key, now) <==> LockedEntry(Entry(RefAfter(h, l), key), now)
    ensures h != [] && h[|h| - 1].key == key ==> (Answer(h, |h| - 1, l) <==> RefAnswer(h, |h| - 1, l))
  {
    TablesInStep(h, now, l, key);
    if key in RefAfter(h, l) {
      RefEntriesOk(h, now, l, key);
    }
    if h != [] && h[|h| - 1].key == key {
      assert h[..|h| - 1] == h[..|h| - 1];
    }
  }

  // ----- when a failure locks -----

  /** The failures of key since its last success or its last failure that was answered
      with the lockout. */
  function Spared(h: seq<Attempt>, l: Limits, key: string): nat {
    if h == [] then 0
    else
      var n := |h| - 1;
      if h[n].key != key then Spared(h[..n], l, key)
      else if h[n].Succeeded? || Answer(h, n, l) then 0
      else Spared(h[..n], l, key) + 1
  }

  /** An entry counts n spared failures while it is not locked. */
  predicate CountsSpared(entry: Option<AuthState>, n: nat, l: Limits) {
    && n < l.maxFailed
    && (entry.None? || entry.value.lockedUntil.Some? ==> n == 0)
    && (entry.Some? && entry.value.lockedUntil.None? ==> n == entry.value.failures)
  }

  lemma FailureCounts(entry: Option<AuthState>, n: nat, now: Time, l: Limits)
    requires CountsSpared(entry, n, l) && (entry.Some? ==> EntryOk(entry.value, l))
    ensures
      var more := Counted(entry, now, l);
      && CountsSpared(Some(more), if more.lockedUntil.Some? then 0 else n + 1, l)
      && (more.lockedUntil.Some? <==> LockedEntry(entry, now) || n == l.maxFailed - 1)
  {
  }

  lemma {:induction false} RefCountsSpared(h: seq<Attempt>, now: Time, l: Limits, key: string)
    requires Clocked(h, now) && SteadyFailures(h, key, l)
    ensures CountsSpared(Entry(RefAfter(h, l), key), Spared(h, l, key), l)
  {
    hide Answer, Counted, CountsSpared, EntryOk;
    if h == [] {
      NothingSpared(l);
    } else {
      var n := |h| - 1;
      SteadyPrefix(h, n, key, l);
      RefCountsSpared(h[..n], h[n].at, l, key);
      if h[n].key == key {
        NothingSpared(l);
        if h[n].Failed? {
          PruningIsInvisible(h, now, l, key);
          if key in RefAfter(h[..n], l) {
            RefEntriesOk(h[..n], h[n].at, l, key);
          }
          FailureCounts(Entry(RefAfter(h[..n], l), key), Spared(h[..n], l, key), h[n].at, l);
        }
      }
    }
  }

  lemma NothingSpared(l: Limits)
    ensures CountsSpared(None, 0, l)
  {
  }

  /** After any history whatever, a key with steady failures has been spared fewer than
      MaxFailedAuth times since its last success or lockout, and one more failure is
      answered with the lockout exactly if the key is locked or was spared one time less
      than that. */
  lemma FailureLocksIff(h: seq<Attempt>, now: Time, l: Limits, key: string)
    requires
      var more := h + [Failed(key, now)];
      Clocked(more, now) && SteadyFailures(more, key, l)
    ensures Spared(h, l, key) < l.maxFailed
    ensures Answer(h + [Failed(key, now)], |h|, l) <==>
            Locked(After(h, l), key, now) || Spared(h, l, key) == l.maxFailed - 1
  {
    var more := h + [Failed(key, now)];
    assert more[..|h|] == h;
    SteadyPrefix(more, |h|, key, l);
    ClockedPrefix(more, |h|, now);
    RefCountsSpared(h, now, l, key);
    PruningIsInvisible(h, now, l, key);
    PruningIsInvisible(more, now, l, key);
    if key in RefAfter(h, l) {
      RefEntriesOk(h, now, l, key);
    }
    FailureCounts(Entry(RefAfter(h, l), key), Spared(h, l, key), now, l);
  }

  lemma ClockedPrefix(h: seq<Attempt>, n: nat, now: Time)
    requires Clocked(h, now) && n <= |h|
    ensures Clocked(h[..n], now)
  {
  }

  /** The number of key's failures since its last success. */
  function FailuresOf(h: seq<Attempt>, key: string): nat {
    if h == [] then 0
    else
      var n := |h| - 1;
      if h[n].key != key then FailuresOf(h[..n], key)
      else if h[n].Succeeded? then 0
      else FailuresOf(h[..n], key) + 1
  }

  lemma {:induction false} RefCounts(h: seq<Attempt>, l: Limits, key: string)
    requires FailuresOf(h, key) <= l.maxFailed
    ensures
      var n := FailuresOf(h, key);
      if n == 0 then key !in RefAfter(h, l)
      else key in RefAfter(h, l) && RefAfter(h, l)[key].failures == n
           && (RefAfter(h, l)[key].lockedUntil.Some? <==> n == l.maxFailed)
  {
    if h != [] && !(h[|h| - 1].key == key && h[|h| - 1].Succeeded?) {
      RefCounts(h[..|h| - 1], l, key);
    }
  }

  /** Of a key's steady failures since its last success, the one numbered MaxFailedAuth
      is answered with the lockout and none before it is. */
  lemma MaxFailuresLock(h: seq<Attempt>, l: Limits, key: string)
    requires h != [] && h[|h| - 1] == Failed(key, h[|h| - 1].at) && Clocked(h, h[|h| - 1].at)
    requires SteadyFailures(h, key, l) && FailuresOf(h, key) <= l.maxFailed
    ensures Answer(h, |h| - 1, l) <==> FailuresOf(h, key) == l.maxFailed
  {
    PruningIsInvisible(h, h[|h| - 1].at, l, key);
    RefCounts(h, l, key);
    assert RefAfter(h, l)[key] == Counted(Entry(RefAfter(h[..|h| - 1], l), key), h[|h| - 1].at, l);
  }

  // ----- the gap bound is tight -----

  ghost predicate NeverSucceeds(h: seq<Attempt>, key: string) {
    forall i :: 0 <= i < |h| ==> !(h[i].Succeeded? && h[i].key == key)
  }

  function Repeated(key: string, n: nat): seq<Attempt> {
    seq(n, i => Failed(key, 0))
  }

  lemma {:induction false} RepeatedTables(key: string, n: nat, l: Limits)
    requires n < l.maxFailed
    ensures RefAfter(Repeated(key, n), l) == if n == 0 then map[] else map[key := AuthState(n, None, 0)]
    ensures After(Repeated(key, n), l) ==
      if n == 0 then EMPTY else Table(map[key := AuthState(n, None, 0)], Some(0))
  {
    if n > 0 {
      var h := Repeated(key, n);
      assert h[..|h| - 1] == Repeated(key, n - 1);
      RepeatedTables(key, n - 1, l);
    }
  }

  /** For every limit above one and every gap of two lockouts or more there is a
      history in which pruning shows: one failure short of the limit, then that gap. */
  lemma GapBoundIsTight(key: string, gap: nat, l: Limits)
    requires l.maxFailed >= 2 && gap >= 2 * l.lockout
    ensures
      var h := Repeated(key, l.maxFailed - 1) + [Failed(key, gap)];
      && Clocked(h, gap) && NeverSucceeds(h, key)
      && RefAnswer(h, l.maxFailed - 1, l) && !Answer(h, l.maxFailed - 1, l)
  {
    var n := l.maxFailed - 1;
    var h := Repeated(key, n) + [Failed(key, gap)];
    assert h[..n] == Repeated(key, n);
    RepeatedTables(key, n, l);
  }
}
