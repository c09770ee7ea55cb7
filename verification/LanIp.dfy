/** Choosing the LAN address from the routing table: select_default_gateway_ip of
    scripts/detect_lan_ip.py. Parsing and printing dotted addresses are library
    calls, given here as functions. */
module LanIp {
  import opened Wrappers
  import opened Addresses

  /** A route; a missing string is empty, a missing or unreadable metric is None. */
  datatype Route = Route(dst: string, gateway: string, dev: string, prefsrc: string, metric: Option<int>)

  /** An address of a device; None is a missing or unreadable value. */
  datatype Item = Item(family: string, scope: string, local: Option<string>, prefixlen: Option<int>)

  type Parser = string -> Option<nat>
  type Printer = nat -> string

  function Metric(route: Route): int {
    if route.metric.Some? then route.metric.value else 0
  }

  // ----- sorted(routes, key=_metric) -----

  function Insert(x: Route, s: seq<Route>): seq<Route> {
    if s == [] || Metric(x) <= Metric(s[0]) then [x] + s else [s[0]] + Insert(x, s[1..])
  }

  /** The stable sort: among equal metrics, the earlier route stays first. */
  function Sorted(routes: seq<Route>): seq<Route> {
    if routes == [] then [] else Insert(routes[0], Sorted(routes[1..]))
  }

  ghost predicate Ascending(s: seq<Route>) {
    forall i, j :: 0 <= i < j < |s| ==> Metric(s[i]) <= Metric(s[j])
  }

  // ----- candidates -----

  /** The address of an item, if the item is usable with this gateway. */
  function Usable(item: Item, gateway: nat, parse: Parser): Option<nat> {
    if item.family != "inet" || item.scope != "global" then None
    else if item.local.None? || item.prefixlen.None? then None
    else if parse(item.local.value).None? || !(0 <= item.prefixlen.value <= 32) then None
    else
      var local := parse(item.local.value).value;
      if Contains(Network(V4(local), item.prefixlen.value), V4(gateway)) then Some(local) else None
  }

  function CandidatesAmong(items: seq<Item>, gateway: nat, parse: Parser): seq<nat> {
    if items == [] then []
    else
      var last := Usable(items[|items| - 1], gateway, parse);
      CandidatesAmong(items[..|items| - 1], gateway, parse) + if last.Some? then [last.value] else []
  }

  function ItemsOf(route: Route, devices: map<string, seq<Item>>): seq<Item> {
    if route.dev in devices then devices[route.dev] else []
  }

  predicate IsDefault(route: Route, parse: Parser) {
    route.dst == "default" && route.gateway != "" && route.dev != "" && parse(route.gateway).Some?
  }

  function Candidates(route: Route, devices: map<string, seq<Item>>, parse: Parser): seq<nat> {
    if IsDefault(route, parse)
    then CandidatesAmong(ItemsOf(route, devices), parse(route.gateway).value, parse)
    else []
  }

  predicate Feasible(route: Route, devices: map<string, seq<Item>>, parse: Parser) {
    Candidates(route, devices, parse) != []
  }

  /** Which candidate of a route is answered: the preferred source if it is one,
      otherwise the first. */
  ghost function Answer(route: Route, candidates: seq<nat>, show: Printer): string
    requires candidates != []
  {
    if route.prefsrc != "" && exists i :: 0 <= i < |candidates| && show(candidates[i]) == route.prefsrc
    then route.prefsrc
    else show(candidates[0])
  }

  ghost function FirstFeasible(s: seq<Route>, devices: map<string, seq<Item>>, parse: Parser): (r: Option<Route>)
    ensures r.Some? ==> Feasible(r.value, devices, parse)
  {
    if s == [] then None
    else if Feasible(s[0], devices, parse) then Some(s[0])
    else FirstFeasible(s[1..], devices, parse)
  }

  /** The outcome; None is the ValueError of the source. */
  ghost function Selected(
      routes: seq<Route>, devices: map<string, seq<Item>>, parse: Parser, show: Printer): Option<string>
  {
    match FirstFeasible(Sorted(routes), devices, parse)
    case None => None
    case Some(route) => Some(Answer(route, Candidates(route, devices, parse), show))
  }

  // ----- what is chosen -----

  /** Route i comes before route j: a metric that is there counts as it is and any other
      as 0, the lower one wins, and equal ones go by position. */
  ghost predicate Before(routes: seq<Route>, i: nat, j: nat)
    requires i < |routes| && j < |routes|
  {
    match (routes[i].metric, routes[j].metric)
    case (Some(a), Some(b)) => a < b || (a == b && i <= j)
    case (Some(a), None) => a < 0 || (a == 0 && i <= j)
    case (None, Some(b)) => 0 < b || (0 == b && i <= j)
    case (None, None) => i <= j
  }

  /** The item is this global IPv4 address, and the gateway lies in the range of addresses
      of its prefix. */
  ghost predicate SharesSubnet(item: Item, gateway: nat, parse: Parser, address: nat) {
    && item.family == "inet" && item.scope == "global"
    && item.local.Some? && parse(item.local.value) == Some(address)
    && item.prefixlen.Some? && 0 <= item.prefixlen.value <= 32
    && var size := Pow2(32 - item.prefixlen.value);
       var first := address / size * size;
       first <= gateway < first + size
  }

  ghost predicate Shared(items: seq<Item>, gateway: nat, parse: Parser, k: nat, address: nat) {
    k < |items| && SharesSubnet(items[k], gateway, parse, address)
  }

  /** Item k is the first that shares the gateway's subnet. */
  ghost predicate FirstShared(items: seq<Item>, gateway: nat, parse: Parser, k: nat, address: nat) {
    && Shared(items, gateway, parse, k, address)
    && (forall l, other :: 0 <= l < k ==> !Shared(items, gateway, parse, l, other))
  }

  /** A default route through a known device that has an address in its gateway's subnet. */
  ghost predicate Offers(route: Route, devices: map<string, seq<Item>>, parse: Parser) {
    && route.dst == "default" && route.gateway != "" && route.dev != "" && parse(route.gateway).Some?
    && route.dev in devices
    && exists k, address :: Shared(devices[route.dev], parse(route.gateway).value, parse, k, address)
  }

  /** Route i offers an address, and comes before every route that does. */
  ghost predicate Best(routes: seq<Route>, i: nat, devices: map<string, seq<Item>>, parse: Parser) {
    && i < |routes| && Offers(routes[i], devices, parse)
    && (forall j :: 0 <= j < |routes| && Offers(routes[j], devices, parse) ==> Before(routes, i, j))
  }

  lemma UsableIff(item: Item, gateway: nat, parse: Parser, address: nat)
    ensures Usable(item, gateway, parse) == Some(address) <==> SharesSubnet(item, gateway, parse, address)
  {
    if item.local.Some? && parse(item.local.value) == Some(address)
      && item.prefixlen.Some? && 0 <= item.prefixlen.value <= 32 {
      NetworkIsRange(Network(V4(address), item.prefixlen.value), V4(gateway));
    }
  }

  /** The candidates are the addresses of the items that share the gateway's subnet, all of
      them, the first item's in front. */
  lemma {:induction false} CandidatesAreShared(items: seq<Item>, gateway: nat, parse: Parser)
    ensures
      var candidates := CandidatesAmong(items, gateway, parse);
      && (forall k, a :: Shared(items, gateway, parse, k, a) ==> a in candidates)
      && (forall a :: a in candidates ==> exists k :: Shared(items, gateway, parse, k, a))
      && (candidates != [] ==> exists k :: FirstShared(items, gateway, parse, k, candidates[0]))
  {
    hide Usable, SharesSubnet;
    if items != [] {
      var n := |items| - 1;
      var init := items[..n];
      var front, all := CandidatesAmong(init, gateway, parse), CandidatesAmong(items, gateway, parse);
      CandidatesAreShared(init, gateway, parse);
      forall a: nat ensures Usable(items[n], gateway, parse) == Some(a) <==> Shared(items, gateway, parse, n, a) {
        UsableIff(items[n], gateway, parse, a);
      }
      forall k: nat, a: nat ensures k < n ==>
        (Shared(items, gateway, parse, k, a) <==> Shared(init, gateway, parse, k, a))
      {
      }
      if front != [] {
        var k :| FirstShared(init, gateway, parse, k, front[0]);
        assert FirstShared(items, gateway, parse, k, all[0]);
      } else if all != [] {
        assert FirstShared(items, gateway, parse, n, all[0]);
      }
    }
  }

  lemma FeasibleIff(route: Route, devices: map<string, seq<Item>>, parse: Parser)
    ensures Feasible(route, devices, parse) <==> Offers(route, devices, parse)
  {
    hide Shared;
    if IsDefault(route, parse) {
      var items, gateway := ItemsOf(route, devices), parse(route.gateway).value;
      var candidates := Candidates(route, devices, parse);
      CandidatesAreShared(items, gateway, parse);
      if candidates != [] {
        assert candidates[0] in candidates;
        var k :| Shared(items, gateway, parse, k, candidates[0]);
      } else {
        assert forall k, a :: !Shared(items, gateway, parse, k, a);
      }
    }
  }

  lemma {:induction false} InsertKeeps(x: Route, s: seq<Route>)
    ensures multiset(Insert(x, s)) == multiset(s) + multiset{x}
  {
    hide Metric;
    if s != [] {
      InsertKeeps(x, s[1..]);
      assert s == [s[0]] + s[1..];
    }
  }

  lemma {:induction false} InsertAscending(x: Route, s: seq<Route>)
    requires Ascending(s)
    ensures Ascending(Insert(x, s)) && multiset(Insert(x, s)) == multiset(s) + multiset{x}
  {
    hide Metric;
    InsertKeeps(x, s);
    if s != [] && Metric(x) > Metric(s[0]) {
      InsertAscending(x, s[1..]);
      FrontIsLeast(x, s, Insert(x, s[1..]));
    }
  }

  lemma FrontIsLeast(x: Route, s: seq<Route>, rest: seq<Route>)
    requires Ascending(s) && s != [] && Metric(x) > Metric(s[0])
    requires multiset(rest) == multiset(s[1..]) + multiset{x} && Ascending(rest)
    ensures Ascending([s[0]] + rest)
  {
    forall y | y in rest ensures Metric(s[0]) <= Metric(y) {
      assert y in multiset(rest);
    }
  }

  lemma {:induction false} SortedAscending(routes: seq<Route>)
    ensures Ascending(Sorted(routes)) && multiset(Sorted(routes)) == multiset(routes)
  {
    if routes != [] {
      SortedAscending(routes[1..]);
      InsertAscending(routes[0], Sorted(routes[1..]));
      assert routes == [routes[0]] + routes[1..];
    }
  }

  lemma {:induction false} FirstFeasibleIsLeast(s: seq<Route>, devices: map<string, seq<Item>>, parse: Parser)
    requires Ascending(s) && s != []
    ensures FirstFeasible(s, devices, parse).Some? ==> Metric(s[0]) <= Metric(FirstFeasible(s, devices, parse).value)
  {
    if !Feasible(s[0], devices, parse) && |s| > 1 {
      FirstFeasibleIsLeast(s[1..], devices, parse);
    }
  }

  /** Inserting a route ahead of its equals displaces the choice exactly if the route
      is feasible and not worse. */
  lemma {:induction false} InsertChoice(x: Route, s: seq<Route>, devices: map<string, seq<Item>>, parse: Parser)
    requires Ascending(s)
    ensures
      var was := FirstFeasible(s, devices, parse);
      FirstFeasible(Insert(x, s), devices, parse) ==
        if Feasible(x, devices, parse) && (was.None? || Metric(x) <= Metric(was.value)) then Some(x) else was
  {
    if s == [] {
      assert ([x] + s)[1..] == s;
    } else if Metric(x) <= Metric(s[0]) {
      assert ([x] + s)[1..] == s;
      FirstFeasibleIsLeast(s, devices, parse);
    } else {
      InsertChoice(x, s[1..], devices, parse);
      assert Insert(x, s)[1..] == Insert(x, s[1..]);
    }
  }

  /** Route i is feasible, and none of the feasible routes has a smaller metric, or the same
      one at an earlier position. */
  ghost predicate Least(routes: seq<Route>, i: nat, devices: map<string, seq<Item>>, parse: Parser) {
    && i < |routes| && Feasible(routes[i], devices, parse)
    && (forall j :: 0 <= j < |routes| && Feasible(routes[j], devices, parse) ==>
          Metric(routes[i]) < Metric(routes[j]) || (Metric(routes[i]) == Metric(routes[j]) && i <= j))
  }

  lemma {:induction false} ChoiceIsLeast(routes: seq<Route>, devices: map<string, seq<Item>>, parse: Parser)
    returns (i: int)
    ensures FirstFeasible(Sorted(routes), devices, parse).None? ==>
      i == -1 && forall j :: 0 <= j < |routes| ==> !Feasible(routes[j], devices, parse)
    ensures FirstFeasible(Sorted(routes), devices, parse).Some? ==>
      i >= 0 && Least(routes, i, devices, parse) && routes[i] == FirstFeasible(Sorted(routes), devices, parse).value
  {
    if routes == [] {
      i := -1;
    } else {
      var x, rest := routes[0], routes[1..];
      var k := ChoiceIsLeast(rest, devices, parse);
      SortedAscending(rest);
      InsertChoice(x, Sorted(rest), devices, parse);
      var was := FirstFeasible(Sorted(rest), devices, parse);
      if Feasible(x, devices, parse) && (was.None? || Metric(x) <= Metric(was.value)) {
        i := 0;
        forall j | 0 <= j < |routes| && Feasible(routes[j], devices, parse)
          ensures Metric(x) < Metric(routes[j]) || (Metric(x) == Metric(routes[j]) && 0 <= j)
        {
          if j > 0 {
            assert routes[j] == rest[j - 1];
          }
        }
      } else {
        i := if was.Some? then k + 1 else -1;
        forall j | 0 <= j < |routes| && Feasible(routes[j], devices, parse)
          ensures i >= 0
          ensures Metric(routes[i]) < Metric(routes[j]) || (Metric(routes[i]) == Metric(routes[j]) && i <= j)
        {
          if j > 0 {
            assert routes[j] == rest[j - 1];
          }
        }
      }
    }
  }

  lemma LeastIsBest(routes: seq<Route>, i: nat, devices: map<string, seq<Item>>, parse: Parser)
    requires Least(routes, i, devices, parse)
    ensures Best(routes, i, devices, parse)
  {
    hide Feasible, Offers;
    FeasibleIff(routes[i], devices, parse);
    forall j | 0 <= j < |routes| && Offers(routes[j], devices, parse) ensures Before(routes, i, j) {
      FeasibleIff(routes[j], devices, parse);
    }
  }

  /** The route chosen from the sorted list is the best one of the original list, and there
      is none exactly if no route offers an address. */
  lemma ChoiceIsBest(routes: seq<Route>, devices: map<string, seq<Item>>, parse: Parser) returns (i: int)
    ensures FirstFeasible(Sorted(routes), devices, parse).None? ==>
      i == -1 && forall j :: 0 <= j < |routes| ==> !Offers(routes[j], devices, parse)
    ensures FirstFeasible(Sorted(routes), devices, parse).Some? ==>
      i >= 0 && Best(routes, i, devices, parse) && routes[i] == FirstFeasible(Sorted(routes), devices, parse).value
  {
    hide Feasible, Offers, Best, Sorted, FirstFeasible;
    i := ChoiceIsLeast(routes, devices, parse);
    if i >= 0 {
      LeastIsBest(routes, i, devices, parse);
    } else {
      forall j | 0 <= j < |routes| ensures !Offers(routes[j], devices, parse) {
        FeasibleIff(routes[j], devices, parse);
      }
    }
  }

  /** The text answered for one route. */
  ghost predicate AnswersRoute(
      route: Route, items: seq<Item>, gateway: nat, parse: Parser, show: Printer, text: string)
  {
    exists k, address :: Shared(items, gateway, parse, k, address) && show(address) == text
      && ((route.prefsrc != "" && text == route.prefsrc) || FirstShared(items, gateway, parse, k, address))
      && (route.prefsrc != "" && text != route.prefsrc ==>
            forall l, other :: Shared(items, gateway, parse, l, other) ==> show(other) != route.prefsrc)
  }

  lemma AnswerIsShared(
      route: Route, items: seq<Item>, gateway: nat, parse: Parser, show: Printer, candidates: seq<nat>)
    requires candidates == CandidatesAmong(items, gateway, parse) && candidates != []
    ensures AnswersRoute(route, items, gateway, parse, show, Answer(route, candidates, show))
  {
    hide CandidatesAmong, Shared;
    CandidatesAreShared(items, gateway, parse);
    var text := Answer(route, candidates, show);
    if route.prefsrc != "" && exists i :: 0 <= i < |candidates| && show(candidates[i]) == route.prefsrc {
      var i :| 0 <= i < |candidates| && show(candidates[i]) == route.prefsrc;
      assert candidates[i] in candidates;
      var k :| Shared(items, gateway, parse, k, candidates[i]);
    } else {
      var k :| FirstShared(items, gateway, parse, k, candidates[0]);
      forall l, other | Shared(items, gateway, parse, l, other)
        ensures route.prefsrc != "" ==> show(other) != route.prefsrc
      {
        assert other in candidates;
      }
    }
  }

  /** Route i is the best one and text is an address of its device in one subnet with its
      gateway: the preferred source if that is such an address, otherwise the first one. */
  ghost predicate Answers(
      routes: seq<Route>, i: int, devices: map<string, seq<Item>>, parse: Parser, show: Printer, text: string)
  {
    && 0 <= i && Best(routes, i, devices, parse)
    && AnswersRoute(routes[i], devices[routes[i].dev], parse(routes[i].gateway).value, parse, show, text)
  }

  /** The whole choice. It fails exactly if no route offers an address, and otherwise
      answers for the best route. */
  lemma SelectionIsOptimal(routes: seq<Route>, devices: map<string, seq<Item>>, parse: Parser, show: Printer)
    ensures Selected(routes, devices, parse, show).None? <==>
            forall j :: 0 <= j < |routes| ==> !Offers(routes[j], devices, parse)
    ensures Selected(routes, devices, parse, show).Some? ==>
      exists i :: Answers(routes, i, devices, parse, show, Selected(routes, devices, parse, show).value)
  {
    hide CandidatesAmong, Shared, AnswersRoute, Sorted, FirstFeasible, Answer;
    var i := ChoiceIsBest(routes, devices, parse);
    if i >= 0 {
      var route := routes[i];
      FeasibleIff(route, devices, parse);
      var gateway := parse(route.gateway).value;
      AnswerIsShared(route, devices[route.dev], gateway, parse, show, Candidates(route, devices, parse));
      assert Answers(routes, i, devices, parse, show, Selected(routes, devices, parse, show).value);
    }
  }

  // ----- the loops -----

  method CandidatesOf(items: seq<Item>, gateway: nat, parse: Parser) returns (candidates: seq<nat>)
    ensures candidates == CandidatesAmong(items, gateway, parse)
  {
    candidates := [];
    for i := 0 to |items|
      invariant candidates == CandidatesAmong(items[..i], gateway, parse)
    {
      assert items[..i + 1][..i] == items[..i];
      var usable := Usable(items[i], gateway, parse);
      if usable.Some? {
        candidates := candidates + [usable.value];
      }
    }
    assert items[..|items|] == items;
  }

  /** The answer among the candidates of one route, if it has any. */
  method Preferred(route: Route, candidates: seq<nat>, show: Printer) returns (answer: Option<string>)
    ensures answer == if candidates == [] then None else Some(Answer(route, candidates, show))
  {
    for j := 0 to |candidates|
      invariant route.prefsrc != "" ==> forall k :: 0 <= k < j ==> show(candidates[k]) != route.prefsrc
    {
      if route.prefsrc != "" && show(candidates[j]) == route.prefsrc {
        return Some(show(candidates[j]));
      }
    }
    if candidates != [] {
      return Some(show(candidates[0]));
    }
    return None;
  }

  method SelectDefaultGatewayIp(
      routes: seq<Route>, devices: map<string, seq<Item>>, parse: Parser, show: Printer)
    returns (answer: Option<string>)
    ensures answer == Selected(routes, devices, parse, show)
    ensures answer.None? ==> forall j :: 0 <= j < |routes| ==> !Offers(routes[j], devices, parse)
    ensures answer.Some? ==> exists i :: Answers(routes, i, devices, parse, show, answer.value)
  {
    hide Answer, CandidatesAmong, ItemsOf, Offers, Answers;
    SelectionIsOptimal(routes, devices, parse, show);
    var ordered := Sorted(routes);
    for i := 0 to |ordered|
      invariant FirstFeasible(ordered, devices, parse) == FirstFeasible(ordered[i..], devices, parse)
    {
      var route := ordered[i];
      assert ordered[i..][1..] == ordered[i + 1..];
      if route.dst != "default" || route.gateway == "" || route.dev == "" {
        continue;
      }
      var gateway := parse(route.gateway);
      if gateway.None? {
        continue;
      }
      var candidates := CandidatesOf(ItemsOf(route, devices), gateway.value, parse);
      assert candidates == Candidates(route, devices, parse);
      answer := Preferred(route, candidates, show);
      if answer.Some? {
        return;
      }
    }
    return None;
  }
}
