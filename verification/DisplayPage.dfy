/** The display page of files/static/main.js: its code field and the queue of ICE
    candidates, whose two await points let any other event run in between.

    A connection is numbered by the call of clearPeer before it, so that the candidates
    taken and applied can be counted by session. */
module DisplayPage {
  import opened Wrappers
  import opened Signalling
  import opened Screens

  /** What is suspended at an await: answerOffer at setRemoteDescription (settled or
      not), or a flush loop at addIceCandidate. */
  datatype Task = AwaitRemote(k: nat, settled: bool) | AwaitAdd(k: nat)

  /** Candidates with the session each belongs to. */
  type Ledger = seq<(nat, string)>

  /** `clears`, `received` and `added` record calls of clearPeer, candidates taken and
      calls of addIceCandidate; the page reads only the first four. */
  datatype Page = Page(
    pc: Option<nat>, remote: set<nat>, pending: seq<string>, screen: Screen,
    tasks: multiset<Task>, clears: nat, received: Ledger, added: Ledger)

  datatype PageEvent =
    | Take(m: Msg)
    | TrackEnded
    | RemoteSet(k: nat)
    | RemoteRejected(k: nat)
    | ResumeRemote(k: nat)
    | ResumeAdd(k: nat)
    | AddRejected(k: nat)

  const FRESH_PAGE := Page(None, {}, [], Blank, multiset{}, 0, [], [])

  /** How often the candidate c occurs for session k. */
  function Times(t: Ledger, k: nat, c: string): nat {
    if t == [] then 0
    else Times(t[..|t| - 1], k, c) + if t[|t| - 1] == (k, c) then 1 else 0
  }

  predicate HasRemote(p: Page) {
    p.pc.Some? && p.pc.value in p.remote
  }

  /** clearPeer. */
  function Cleared(p: Page): Page {
    p.(pc := None, pending := [], clears := p.clears + 1)
  }

  /** addRemoteCandidate. */
  function WithCandidate(p: Page, c: string): Page {
    var q := p.(received := p.received + [(p.clears, c)]);
    if HasRemote(p) then q.(added := p.added + [(p.pc.value, c)]) else q.(pending := p.pending + [c])
  }

  /** flushRemoteCandidates up to its next await, or to its end. */
  function Flushed(p: Page): Page {
    if HasRemote(p) && p.pending != []
    then p.(pending := p.pending[1..], added := p.added + [(p.pc.value, p.pending[0])],
            tasks := p.tasks + multiset{AwaitAdd(p.pc.value)})
    else p
  }

  function WithScreen(p: Page, m: Msg): Page {
    if Shows(m).Some? then p.(screen := Shows(m).value) else p
  }

  /** The message listener of openDisplay. */
  function Took(p: Page, m: Msg): Page {
    match m.typ
    case NewSession => WithScreen(Cleared(p).(pc := Some(p.clears + 1)), m)
    case PresenterClosed => WithScreen(Cleared(p), m)
    case AddCallerIceCandidate => WithCandidate(p, m.value)
    case GotOffer =>
      if p.pc.Some? then p.(tasks := p.tasks + multiset{AwaitRemote(p.pc.value, false)}) else p
    case _ => WithScreen(p, m)
  }

  lemma TookByType(p: Page, m: Msg)
    ensures m.typ == DisplayReady ==> Took(p, m) == p.(screen := Code(m.session))
    ensures m.typ == RefreshCode ==> Took(p, m) == p.(screen := Connecting)
    ensures m.typ == NewSession ==> Took(p, m) == Cleared(p).(pc := Some(p.clears + 1), screen := Connecting)
    ensures m.typ == PresenterClosed ==> Took(p, m) == Cleared(p).(screen := Code(m.value))
    ensures m.typ == AddCallerIceCandidate ==> Took(p, m) == WithCandidate(p, m.value)
    ensures m.typ == GotOffer && p.pc.Some? ==>
              Took(p, m) == p.(tasks := p.tasks + multiset{AwaitRemote(p.pc.value, false)})
    ensures m.typ == GotOffer && p.pc.None? ==> Took(p, m) == p
    ensures Shows(m).None? && m.typ != AddCallerIceCandidate && m.typ != GotOffer ==> Took(p, m) == p
  {
    hide WithCandidate;
  }

  predicate Possible(p: Page, e: PageEvent) {
    match e
    case Take(_) => true
    case TrackEnded => true
    case RemoteSet(k) => AwaitRemote(k, false) in p.tasks
    case RemoteRejected(k) => AwaitRemote(k, false) in p.tasks
    case ResumeRemote(k) => AwaitRemote(k, true) in p.tasks
    case ResumeAdd(k) => AwaitAdd(k) in p.tasks
    case AddRejected(k) => AwaitAdd(k) in p.tasks
  }

  function Without(p: Page, t: Task): Page {
    p.(tasks := p.tasks - multiset{t})
  }

  function After(p: Page, e: PageEvent): Page
    requires Possible(p, e)
  {
    match e
    case Take(m) => Took(p, m)
    case TrackEnded => Cleared(p)
    case RemoteSet(k) =>
      var q := Without(p, AwaitRemote(k, false));
      q.(remote := p.remote + {k}, tasks := q.tasks + multiset{AwaitRemote(k, true)})
    case RemoteRejected(k) => Without(p, AwaitRemote(k, false))
    case ResumeRemote(k) => Flushed(Without(p, AwaitRemote(k, true)))
    case ResumeAdd(k) => Flushed(Without(p, AwaitAdd(k)))
    case AddRejected(k) => Without(p, AwaitAdd(k))
  }

  // ----- the page as an object -----

  /** The global state object of the page. */
  class BrowserPage {
    var pc: Option<nat>
    var remote: set<nat>
    var pending: seq<string>
    var screen: Screen
    var clears: nat
    ghost var tasks: multiset<Task>
    ghost var received: Ledger
    ghost var added: Ledger

    ghost function Value(): Page
      reads this
    {
      Page(pc, remote, pending, screen, tasks, clears, received, added)
    }

    constructor ()
      ensures Value() == FRESH_PAGE
    {
      pc, remote, pending, screen, clears := None, {}, [], Blank, 0;
      tasks, received, added := multiset{}, [], [];
    }

    method ClearPeer()
      modifies this
      ensures Value() == Cleared(old(Value()))
    {
      pending := [];
      pc := None;
      clears := clears + 1;
    }

    method AddRemoteCandidate(c: string)
      modifies this
      ensures Value() == WithCandidate(old(Value()), c)
    {
      received := received + [(clears, c)];
      if pc.Some? && pc.value in remote {
        added := added + [(pc.value, c)];
      } else {
        pending := pending + [c];
      }
    }

    /** Runs to the next await; `waiting` says that there is one. */
    method FlushRemoteCandidates() returns (waiting: bool)
      modifies this
      ensures Value() == Flushed(old(Value()))
      ensures waiting <==> old(HasRemote(Value()) && pending != [])
    {
      waiting := pc.Some? && pc.value in remote && pending != [];
      if waiting {
        added := added + [(pc.value, pending[0])];
        tasks := tasks + multiset{AwaitAdd(pc.value)};
        pending := pending[1..];
      }
    }

    /** displayPeer: a new connection. */
    method DisplayPeer()
      modifies this`pc
      ensures pc == Some(clears)
    {
      pc := Some(clears);
    }

    /** answerOffer up to its first await. */
    method AnswerOffer()
      requires pc.Some?
      modifies this`tasks
      ensures tasks == old(tasks) + multiset{AwaitRemote(pc.value, false)}
    {
      tasks := tasks + multiset{AwaitRemote(pc.value, false)};
    }

    method OnMessage(m: Msg)
      modifies this
      ensures Value() == Took(old(Value()), m)
    {
      hide Took, WithCandidate;
      TookByType(Value(), m);
      if m.typ == DisplayReady {
        screen := Code(m.session);
      } else if m.typ == RefreshCode {
        screen := Connecting;
      } else if m.typ == NewSession {
        ClearPeer();
        screen := Connecting;
        DisplayPeer();
      } else if m.typ == AddCallerIceCandidate {
        AddRemoteCandidate(m.value);
      } else if m.typ == GotOffer && pc.Some? {
        AnswerOffer();
      } else if m.typ == PresenterClosed {
        ClearPeer();
        screen := Code(m.value);
      }
    }
  }

  // ----- runs -----

  ghost predicate PageStep(p: Page, e: PageEvent, q: Page) {
    Possible(p, e) && q == After(p, e)
  }

  ghost predicate PageRun(ps: seq<Page>, es: seq<PageEvent>) {
    && |ps| == |es| + 1 && ps[0] == FRESH_PAGE
    && (forall i :: 0 <= i < |es| ==> PageStepAt(ps, es, i))
  }

  ghost predicate PageStepAt(ps: seq<Page>, es: seq<PageEvent>, i: nat)
    requires i < |es| && |ps| == |es| + 1
  {
    PageStep(ps[i], es[i], ps[i + 1])
  }

  /** The messages among these events. */
  function Messages(es: seq<PageEvent>): seq<Msg> {
    if es == [] then []
    else
      var e := es[|es| - 1];
      Messages(es[..|es| - 1]) + if e.Take? then [e.m] else []
  }

  /** The code field is the one that Screens computes from the messages alone. */
  lemma {:induction false} CodeFieldFollowsMessages(ps: seq<Page>, es: seq<PageEvent>)
    requires PageRun(ps, es)
    ensures ps[|es|].screen == ScreenOf(Messages(es))
  {
    if es != [] {
      var n := |es| - 1;
      PrefixOfPageRun(ps, es);
      CodeFieldFollowsMessages(ps[..n + 1], es[..n]);
      assert PageStepAt(ps, es, n);
      ScreenStep(ps[n], es[n], ps[n + 1], Messages(es[..n]));
      assert Messages(es) == Messages(es[..n]) + if es[n].Take? then [es[n].m] else [];
    }
  }

  lemma ScreenStep(p: Page, e: PageEvent, q: Page, log: seq<Msg>)
    requires PageStep(p, e, q) && p.screen == ScreenOf(log)
    ensures q.screen == ScreenOf(log + if e.Take? then [e.m] else [])
  {
    if e.Take? {
      LogStep(log, e.m);
    } else {
      assert log + [] == log;
    }
  }

  lemma PrefixOfPageRun(ps: seq<Page>, es: seq<PageEvent>)
    requires PageRun(ps, es) && es != []
    ensures PageRun(ps[..|es|], es[..|es| - 1])
  {
    var qs, fs := ps[..|es|], es[..|es| - 1];
    forall i | 0 <= i < |fs| ensures PageStepAt(qs, fs, i) {
      assert PageStepAt(ps, es, i);
    }
  }

  // ----- the connection -----

  /** The events after which clearPeer has run once more. */
  predicate Clears(e: PageEvent) {
    e.TrackEnded? || (e.Take? && (e.m.typ == NewSession || e.m.typ == PresenterClosed))
  }

  function ClearCount(es: seq<PageEvent>): nat {
    if es == [] then 0 else ClearCount(es[..|es| - 1]) + if Clears(es[|es| - 1]) then 1 else 0
  }

  /** The last event that clears the peer decides: a new session makes a connection of its
      own, the others leave none. */
  function ConnectionAfter(es: seq<PageEvent>): Option<nat> {
    if es == [] then None
    else if !Clears(es[|es| - 1]) then ConnectionAfter(es[..|es| - 1])
    else if es[|es| - 1].Take? && es[|es| - 1].m.typ == NewSession then Some(ClearCount(es))
    else None
  }

  /** Which connection the page has, and which have a remote description, follows from the
      events alone. */
  lemma {:induction false} ConnectionFollowsEvents(ps: seq<Page>, es: seq<PageEvent>)
    requires PageRun(ps, es)
    ensures ps[|es|].pc == ConnectionAfter(es) && ps[|es|].clears == ClearCount(es)
    ensures forall k :: k in ps[|es|].remote <==> RemoteSet(k) in es
  {
    if es != [] {
      var n := |es| - 1;
      PrefixOfPageRun(ps, es);
      ConnectionFollowsEvents(ps[..n + 1], es[..n]);
      assert PageStepAt(ps, es, n);
      assert es == es[..n] + [es[n]];
      ConnectionStep(ps[n], es[n], ps[n + 1]);
    }
  }

  lemma TakingConnection(p: Page, m: Msg)
    ensures
      var q, e := Took(p, m), Take(m);
      && q.clears == p.clears + (if Clears(e) then 1 else 0) && q.remote == p.remote
      && q.pc == if !Clears(e) then p.pc else if m.typ == NewSession then Some(q.clears) else None
  {
    hide Took;
    TookByType(p, m);
  }

  lemma FlushedConnection(p: Page)
    ensures Flushed(p).clears == p.clears && Flushed(p).remote == p.remote && Flushed(p).pc == p.pc
  {
  }

  lemma ConnectionStep(p: Page, e: PageEvent, q: Page)
    requires PageStep(p, e, q)
    ensures q.clears == p.clears + if Clears(e) then 1 else 0
    ensures q.pc == if !Clears(e) then p.pc else if e.Take? && e.m.typ == NewSession then Some(q.clears) else None
    ensures q.remote == p.remote + if e.RemoteSet? then {e.k} else {}
  {
    hide Took, Flushed;
    match e
    case Take(m) => TakingConnection(p, m);
    case ResumeRemote(k) => FlushedConnection(Without(p, AwaitRemote(k, true)));
    case ResumeAdd(k) => FlushedConnection(Without(p, AwaitAdd(k)));
    case _ =>
  }

  // ----- offers -----

  /** The number of offers taken while the page had connection k. */
  function OffersTaken(ps: seq<Page>, es: seq<PageEvent>, n: nat, k: nat): nat
    requires n <= |es| <= |ps|
  {
    if n == 0 then 0
    else
      OffersTaken(ps, es, n - 1, k)
      + if es[n - 1].Take? && es[n - 1].m.typ == GotOffer && ps[n - 1].pc == Some(k) then 1 else 0
  }

  function CountOf(es: seq<PageEvent>, e: PageEvent): nat {
    multiset(es)[e]
  }

  /** The events at which a remote description of k is set or refused, and at which what
      waited for it goes on. */
  predicate OffersBalanced(p: Page, es: seq<PageEvent>, k: nat, taken: nat) {
    && p.tasks[AwaitRemote(k, false)] + CountOf(es, RemoteSet(k)) + CountOf(es, RemoteRejected(k)) == taken
    && p.tasks[AwaitRemote(k, true)] + CountOf(es, ResumeRemote(k)) == CountOf(es, RemoteSet(k))
  }

  lemma CountMore(es: seq<PageEvent>, e: PageEvent, x: PageEvent)
    ensures CountOf(es + [e], x) == CountOf(es, x) + if e == x then 1 else 0
  {
  }

  /** How the tasks that wait for k's remote description change. */
  predicate TasksFollow(p: Page, e: PageEvent, q: Page, k: nat) {
    && q.tasks[AwaitRemote(k, false)] + (if e == RemoteSet(k) || e == RemoteRejected(k) then 1 else 0) ==
       p.tasks[AwaitRemote(k, false)] + (if e.Take? && e.m.typ == GotOffer && p.pc == Some(k) then 1 else 0)
    && q.tasks[AwaitRemote(k, true)] + (if e == ResumeRemote(k) then 1 else 0) ==
       p.tasks[AwaitRemote(k, true)] + (if e == RemoteSet(k) then 1 else 0)
  }

  lemma TakingTasks(p: Page, m: Msg, k: nat)
    ensures TasksFollow(p, Take(m), Took(p, m), k)
  {
    hide Took;
    TookByType(p, m);
  }

  lemma FlushedTasks(p: Page, k: nat, settled: bool)
    ensures Flushed(p).tasks[AwaitRemote(k, settled)] == p.tasks[AwaitRemote(k, settled)]
  {
  }

  lemma WithoutTask(p: Page, t: Task, k: nat, settled: bool)
    requires t in p.tasks
    ensures
      var u := AwaitRemote(k, settled);
      Without(p, t).tasks[u] == if t == u then p.tasks[u] - 1 else p.tasks[u]
  {
  }

  lemma ResumingTasks(p: Page, t: Task, k: nat, settled: bool)
    requires t in p.tasks
    ensures
      var u := AwaitRemote(k, settled);
      Flushed(Without(p, t)).tasks[u] == if t == u then p.tasks[u] - 1 else p.tasks[u]
  {
    hide Flushed, Without;
    WithoutTask(p, t, k, settled);
    FlushedTasks(Without(p, t), k, settled);
  }

  lemma SettingTasks(p: Page, l: nat, k: nat)
    requires AwaitRemote(l, false) in p.tasks
    ensures TasksFollow(p, RemoteSet(l), After(p, RemoteSet(l)), k)
  {
    WithoutTask(p, AwaitRemote(l, false), k, false);
    WithoutTask(p, AwaitRemote(l, false), k, true);
  }

  lemma WaitingTasks(p: Page, e: PageEvent, k: nat)
    requires Possible(p, e) && !e.Take?
    ensures TasksFollow(p, e, After(p, e), k)
  {
    hide Flushed, Without, Took;
    match e
    case TrackEnded =>
    case RemoteSet(l) => SettingTasks(p, l, k);
    case RemoteRejected(l) =>
      WithoutTask(p, AwaitRemote(l, false), k, false);
      WithoutTask(p, AwaitRemote(l, false), k, true);
    case ResumeRemote(l) =>
      ResumingTasks(p, AwaitRemote(l, true), k, true);
      ResumingTasks(p, AwaitRemote(l, true), k, false);
    case ResumeAdd(l) =>
      ResumingTasks(p, AwaitAdd(l), k, true);
      ResumingTasks(p, AwaitAdd(l), k, false);
    case AddRejected(l) =>
      WithoutTask(p, AwaitAdd(l), k, true);
      WithoutTask(p, AwaitAdd(l), k, false);
  }

  lemma OfferStep(p: Page, e: PageEvent, q: Page, es: seq<PageEvent>, k: nat, taken: nat)
    requires PageStep(p, e, q) && OffersBalanced(p, es, k, taken)
    ensures OffersBalanced(q, es + [e], k, taken + if e.Take? && e.m.typ == GotOffer && p.pc == Some(k) then 1 else 0)
  {
    hide CountOf, Took;
    CountMore(es, e, RemoteSet(k));
    CountMore(es, e, RemoteRejected(k));
    CountMore(es, e, ResumeRemote(k));
    if e.Take? {
      TakingTasks(p, e.m, k);
    } else {
      WaitingTasks(p, e, k);
    }
  }

  lemma NoOffersYet(k: nat)
    ensures OffersBalanced(FRESH_PAGE, [], k, 0)
  {
  }

  /** Each offer that finds a connection is handed to that connection once: it is waiting for
      its remote description, or was set, or refused; and each one set goes on to the flush
      once. */
  lemma {:induction false} OffersAreHandedOnOnce(ps: seq<Page>, es: seq<PageEvent>, n: nat, k: nat)
    requires PageRun(ps, es) && n <= |es|
    ensures OffersBalanced(ps[n], es[..n], k, OffersTaken(ps, es, n, k))
  {
    hide OffersBalanced, After;
    if n == 0 {
      NoOffersYet(k);
    } else {
      OffersAreHandedOnOnce(ps, es, n - 1, k);
      assert PageStepAt(ps, es, n - 1);
      OfferStep(ps[n - 1], es[n - 1], ps[n], es[..n - 1], k, OffersTaken(ps, es, n - 1, k));
      assert es[..n] == es[..n - 1] + [es[n - 1]];
    }
  }

  // ----- conservation -----

  /** Of the candidate c and session k: everything taken since the last clearPeer is
      applied to the current connection or still waiting, and no connection was given
      what was not taken in its session. */
  predicate Balanced(p: Page, k: nat, c: string) {
    var taken, applied := Times(p.received, k, c), Times(p.added, k, c);
    if k < p.clears then applied <= taken
    else if k == p.clears then
      taken == applied + multiset(p.pending)[c] && (p.pc.None? ==> applied == 0)
    else applied == 0 && taken == 0
  }

  /** The current connection is the one made after the last clearPeer. */
  predicate Current(p: Page) {
    p.pc.Some? ==> p.pc.value == p.clears
  }

  predicate SameTimes(p: Page, q: Page, k: nat, c: string) {
    Times(q.added, k, c) == Times(p.added, k, c) && Times(q.received, k, c) == Times(p.received, k, c)
  }

  /** What one step does to the books: kept, and closed for past sessions. */
  predicate BooksFollow(p: Page, q: Page, k: nat, c: string) {
    && Current(q) && Balanced(q, k, c) && p.clears <= q.clears
    && (k < p.clears ==> SameTimes(p, q, k, c))
  }

  lemma TimesMore(t: Ledger, j: nat, d: string, k: nat, c: string)
    ensures Times(t + [(j, d)], k, c) == Times(t, k, c) + if j == k && d == c then 1 else 0
  {
    assert (t + [(j, d)])[..|t|] == t;
  }

  lemma CandidateConserves(p: Page, d: string, k: nat, c: string)
    requires Current(p) && Balanced(p, k, c)
    ensures BooksFollow(p, WithCandidate(p, d), k, c)
  {
    TimesMore(p.received, p.clears, d, k, c);
    TimesMore(p.added, p.clears, d, k, c);
  }

  lemma FlushConserves(p: Page, k: nat, c: string)
    requires Current(p) && Balanced(p, k, c)
    ensures BooksFollow(p, Flushed(p), k, c)
  {
    if HasRemote(p) && p.pending != [] {
      TimesMore(p.added, p.clears, p.pending[0], k, c);
      assert p.pending == [p.pending[0]] + p.pending[1..];
    }
  }

  lemma ClearConserves(p: Page, pc: Option<nat>, k: nat, c: string)
    requires Current(p) && Balanced(p, k, c) && (pc.Some? ==> pc.value == p.clears + 1)
    ensures BooksFollow(p, Cleared(p).(pc := pc), k, c)
  {
  }

  /** Only the tasks, the descriptions and the code field have changed. */
  lemma OtherFieldsConserve(p: Page, q: Page, k: nat, c: string)
    requires Current(p) && Balanced(p, k, c)
    requires q.clears == p.clears && q.pc == p.pc && q.pending == p.pending
    requires q.received == p.received && q.added == p.added
    ensures BooksFollow(p, q, k, c)
  {
  }

  lemma TakeConserves(p: Page, m: Msg, k: nat, c: string)
    requires Current(p) && Balanced(p, k, c)
    ensures BooksFollow(p, Took(p, m), k, c)
  {
    hide Times;
    if m.typ == NewSession {
      ClearConserves(p, Some(p.clears + 1), k, c);
      OtherFieldsConserve(Cleared(p).(pc := Some(p.clears + 1)), Took(p, m), k, c);
    } else if m.typ == PresenterClosed {
      ClearConserves(p, None, k, c);
      OtherFieldsConserve(Cleared(p), Took(p, m), k, c);
    } else if m.typ == AddCallerIceCandidate {
      CandidateConserves(p, m.value, k, c);
    } else {
      OtherFieldsConserve(p, Took(p, m), k, c);
    }
  }

  lemma ResumeConserves(p: Page, t: Task, k: nat, c: string)
    requires Current(p) && Balanced(p, k, c)
    ensures BooksFollow(p, Flushed(Without(p, t)), k, c)
  {
    OtherFieldsConserve(p, Without(p, t), k, c);
    FlushConserves(Without(p, t), k, c);
  }

  lemma StepConserves(p: Page, e: PageEvent, q: Page, k: nat, c: string)
    requires PageStep(p, e, q) && Current(p) && Balanced(p, k, c)
    ensures BooksFollow(p, q, k, c)
  {
    match e
    case Take(m) => TakeConserves(p, m, k, c);
    case TrackEnded => ClearConserves(p, None, k, c);
    case ResumeRemote(j) => ResumeConserves(p, AwaitRemote(j, true), k, c);
    case ResumeAdd(j) => ResumeConserves(p, AwaitAdd(j), k, c);
    case _ => OtherFieldsConserve(p, q, k, c);
  }

  lemma RunStepConserves(ps: seq<Page>, es: seq<PageEvent>, i: nat, k: nat, c: string)
    requires PageRun(ps, es) && i < |es| && Current(ps[i]) && Balanced(ps[i], k, c)
    ensures BooksFollow(ps[i], ps[i + 1], k, c)
  {
    assert PageStepAt(ps, es, i);
    StepConserves(ps[i], es[i], ps[i + 1], k, c);
  }

  /** In every reachable state every candidate of every session is accounted for. */
  lemma {:induction false} CandidatesAreConserved(ps: seq<Page>, es: seq<PageEvent>, i: nat, k: nat, c: string)
    requires PageRun(ps, es) && i < |ps|
    ensures Current(ps[i]) && Balanced(ps[i], k, c)
  {
    if i > 0 {
      CandidatesAreConserved(ps, es, i - 1, k, c);
      RunStepConserves(ps, es, i - 1, k, c);
    }
  }

  /** A connection given up by clearPeer is never handed another candidate. */
  lemma {:induction false} PastSessionsAreClosed(
      ps: seq<Page>, es: seq<PageEvent>, i: nat, j: nat, k: nat, c: string)
    requires PageRun(ps, es) && i <= j < |ps| && k < ps[i].clears
    ensures k < ps[j].clears && SameTimes(ps[i], ps[j], k, c)
  {
    if i < j {
      PastSessionsAreClosed(ps, es, i, j - 1, k, c);
      CandidatesAreConserved(ps, es, j - 1, k, c);
      RunStepConserves(ps, es, j - 1, k, c);
    }
  }

  // ----- the flush loop -----

  /** A loop or answer that will flush the current connection's queue again. */
  predicate FlushWaits(p: Page) {
    p.pc.Some? && (AwaitRemote(p.pc.value, true) in p.tasks || AwaitAdd(p.pc.value) in p.tasks)
  }

  /** No candidate is left behind. */
  predicate NoneStranded(p: Page) {
    HasRemote(p) && p.pending != [] ==> FlushWaits(p)
  }

  lemma FlushStrandsNone(p: Page)
    ensures NoneStranded(Flushed(p))
  {
    if HasRemote(p) && p.pending != [] {
      assert AwaitAdd(p.pc.value) in Flushed(p).tasks;
    }
  }

  lemma TakeStrandsNone(p: Page, m: Msg)
    requires Current(p) && RemotesAreOld(p) && NoneStranded(p)
    ensures NoneStranded(Took(p, m)) && RemotesAreOld(Took(p, m))
  {
    if m.typ == GotOffer && p.pc.Some? {
      assert forall t :: t in p.tasks ==> t in Took(p, m).tasks;
    }
  }

  /** Only connections that exist have, or wait for, a remote description. */
  predicate RemotesAreOld(p: Page) {
    && (forall k :: k in p.remote ==> k <= p.clears)
    && (forall t :: t in p.tasks ==> t.k <= p.clears)
  }

  /** The flush that is rejected was the only one to come back to a queue that is not empty. */
  predicate LosesLastFlush(p: Page, e: PageEvent) {
    && e.AddRejected? && HasRemote(p) && e.k == p.pc.value && p.pending != []
    && p.tasks[AwaitAdd(e.k)] == 1 && AwaitRemote(e.k, true) !in p.tasks
  }

  /** A step strands candidates exactly if it rejects the last flush that waits. */
  lemma StepStrandsNone(p: Page, e: PageEvent, q: Page)
    requires PageStep(p, e, q) && Current(p) && RemotesAreOld(p) && NoneStranded(p)
    ensures RemotesAreOld(q)
    ensures NoneStranded(q) <==> !LosesLastFlush(p, e)
  {
    hide Took, Flushed;
    match e
    case Take(m) => TakeStrandsNone(p, m);
    case TrackEnded =>
    case RemoteSet(k) => RemoteStrandsNone(p, k);
    case RemoteRejected(k) => RefusalStrandsNone(p, k);
    case ResumeRemote(k) => ResumeStrandsNone(p, AwaitRemote(k, true));
    case ResumeAdd(k) => ResumeStrandsNone(p, AwaitAdd(k));
    case AddRejected(k) => RejectionStrands(p, k);
  }

  lemma ResumeStrandsNone(p: Page, t: Task)
    requires Current(p) && RemotesAreOld(p)
    ensures NoneStranded(Flushed(Without(p, t))) && RemotesAreOld(Flushed(Without(p, t)))
  {
    FlushStrandsNone(Without(p, t));
  }

  lemma RefusalStrandsNone(p: Page, k: nat)
    requires Possible(p, RemoteRejected(k)) && RemotesAreOld(p) && NoneStranded(p)
    ensures NoneStranded(Without(p, AwaitRemote(k, false))) && RemotesAreOld(Without(p, AwaitRemote(k, false)))
  {
    TaskEnds(p, AwaitRemote(k, false));
  }

  lemma RejectionStrands(p: Page, k: nat)
    requires Possible(p, AddRejected(k)) && Current(p) && RemotesAreOld(p) && NoneStranded(p)
    ensures RemotesAreOld(Without(p, AwaitAdd(k)))
    ensures NoneStranded(Without(p, AwaitAdd(k))) <==> !LosesLastFlush(p, AddRejected(k))
  {
    TaskEnds(p, AwaitAdd(k));
  }

  lemma TaskEnds(p: Page, t: Task)
    requires t in p.tasks
    ensures FlushWaits(Without(p, t)) <==>
            p.pc.Some? && (OtherTask(p, t, AwaitRemote(p.pc.value, true)) || OtherTask(p, t, AwaitAdd(p.pc.value)))
  {
  }

  /** The task u is there, even after one task t is gone. */
  predicate OtherTask(p: Page, t: Task, u: Task) {
    p.tasks[u] > if t == u then 1 else 0
  }

  lemma RemoteStrandsNone(p: Page, k: nat)
    requires Possible(p, RemoteSet(k)) && RemotesAreOld(p) && NoneStranded(p)
    ensures NoneStranded(After(p, RemoteSet(k))) && RemotesAreOld(After(p, RemoteSet(k)))
  {
    hide Took, Flushed, Cleared;
    var q := After(p, RemoteSet(k));
    assert AwaitRemote(k, true) in q.tasks;
    assert forall t :: t in p.tasks && t != AwaitRemote(k, false) ==> t in q.tasks;
  }

  /** Before state n no last flush was rejected. */
  predicate Unbroken(ps: seq<Page>, es: seq<PageEvent>, n: nat)
    requires n <= |es| <= |ps|
  {
    forall i :: 0 <= i < n ==> !LosesLastFlush(ps[i], es[i])
  }

  lemma {:induction false} QueuesAreBeingFlushed(ps: seq<Page>, es: seq<PageEvent>, n: nat)
    requires PageRun(ps, es) && n < |ps| && Unbroken(ps, es, n)
    ensures NoneStranded(ps[n]) && RemotesAreOld(ps[n])
  {
    if n > 0 {
      QueuesAreBeingFlushed(ps, es, n - 1);
      CandidatesAreConserved(ps, es, n - 1, 0, "");
      assert PageStepAt(ps, es, n - 1);
      StepStrandsNone(ps[n - 1], es[n - 1], ps[n]);
    }
  }

  /** A queue that could be flushed is always being flushed, exactly if addIceCandidate
      never rejects the last flush that waits. */
  lemma NoneStrandedIff(ps: seq<Page>, es: seq<PageEvent>)
    requires PageRun(ps, es)
    ensures (forall i :: 0 <= i < |ps| ==> NoneStranded(ps[i])) <==> Unbroken(ps, es, |es|)
  {
    if Unbroken(ps, es, |es|) {
      forall i | 0 <= i < |ps| ensures NoneStranded(ps[i]) {
        QueuesAreBeingFlushed(ps, es, i);
      }
    } else {
      FirstLoss(ps, es, |es|);
    }
  }

  lemma {:induction false} FirstLoss(ps: seq<Page>, es: seq<PageEvent>, n: nat)
    requires PageRun(ps, es) && n <= |es| && !Unbroken(ps, es, n)
    ensures exists i :: 0 <= i < |ps| && !NoneStranded(ps[i])
  {
    if Unbroken(ps, es, n - 1) {
      QueuesAreBeingFlushed(ps, es, n - 1);
      CandidatesAreConserved(ps, es, n - 1, 0, "");
      assert PageStepAt(ps, es, n - 1);
      StepStrandsNone(ps[n - 1], es[n - 1], ps[n]);
    } else {
      FirstLoss(ps, es, n - 1);
    }
  }

  /** One pass through the body of a flush loop. */
  predicate Flushes(p: Page, e: PageEvent) {
    (e.ResumeRemote? || e.ResumeAdd?) && HasRemote(p) && p.pending != []
  }

  function Passes(ps: seq<Page>, es: seq<PageEvent>, i: nat, j: nat): nat
    requires i <= j <= |es| && |ps| == |es| + 1
  {
    if i == j then 0 else Passes(ps, es, i, j - 1) + if Flushes(ps[j - 1], es[j - 1]) then 1 else 0
  }

  lemma QueueShrinks(p: Page, e: PageEvent, q: Page)
    requires PageStep(p, e, q) && HasRemote(p) && q.clears == p.clears
    ensures q.pc == p.pc && HasRemote(q)
    ensures if Flushes(p, e) then p.pending != [] && q.pending == p.pending[1..] else q.pending == p.pending
  {
  }

  /** Once the remote description is set, the queue only loses its front, one candidate
      for each pass of a flush loop, however many candidates arrive meanwhile. So there
      are at most as many passes as candidates waiting at the start, and when no flush
      is under way any more the queue is empty. */
  lemma {:induction false} FlushTerminates(ps: seq<Page>, es: seq<PageEvent>, i: nat, j: nat)
    requires PageRun(ps, es) && i <= j <= |es| && HasRemote(ps[i])
    requires ps[j].clears == ps[i].clears
    ensures ps[j].pc == ps[i].pc && HasRemote(ps[j])
    ensures
      var n := Passes(ps, es, i, j);
      n <= |ps[i].pending| && ps[j].pending == ps[i].pending[n..]
    ensures Unbroken(ps, es, j) && !FlushWaits(ps[j]) ==> ps[j].pending == []
  {
    if i < j {
      ClearsGrow(ps, es, i, j - 1);
      ClearsGrow(ps, es, j - 1, j);
      FlushTerminates(ps, es, i, j - 1);
      assert PageStepAt(ps, es, j - 1);
      QueueShrinks(ps[j - 1], es[j - 1], ps[j]);
    }
    if Unbroken(ps, es, j) {
      QueuesAreBeingFlushed(ps, es, j);
    }
  }

  lemma {:induction false} ClearsGrow(ps: seq<Page>, es: seq<PageEvent>, i: nat, j: nat)
    requires PageRun(ps, es) && i <= j < |ps|
    ensures ps[i].clears <= ps[j].clears
  {
    if i < j {
      ClearsGrow(ps, es, i, j - 1);
      assert PageStepAt(ps, es, j - 1);
    }
  }
}
