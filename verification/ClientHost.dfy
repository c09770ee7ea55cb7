/** Which client a request is attributed to: isTrustedProxy, clientHost and authKey of
    core/signal.go. Parsing and printing addresses are library calls, given here as
    functions. */
module ClientHost {
  import opened Wrappers
  import opened Text
  import opened Addresses
  import opened Config

  type Parser = string -> Option<IP>
  type Printer = IP -> string

  ghost predicate ValidNetworks(networks: seq<Network>) {
    forall i :: 0 <= i < |networks| ==> ValidNetwork(networks[i])
  }

  ghost predicate Trusted(networks: seq<Network>, ip: Option<IP>)
    requires ValidNetworks(networks)
  {
    ip.Some? && exists i :: 0 <= i < |networks| && Contains(networks[i], ip.value)
  }

  method IsTrustedProxy(networks: seq<Network>, ip: Option<IP>) returns (yes: bool)
    requires ValidNetworks(networks)
    ensures yes <==> Trusted(networks, ip)
  {
    for i := 0 to |networks|
      invariant ip.Some? ==> forall j :: 0 <= j < i ==> !Contains(networks[j], ip.value)
    {
      if ip.Some? && Contains(networks[i], ip.value) {
        return true;
      }
    }
    return false;
  }

  /** A forwarded entry that is an address of nobody's proxy. */
  ghost predicate Candidate(networks: seq<Network>, parse: Parser, entry: string)
    requires ValidNetworks(networks)
  {
    var ip := parse(Trim(entry, GoSpace));
    ip.Some? && !Trusted(networks, ip)
  }

  /** The last candidate among the entries, or -1. */
  ghost function LastCandidate(networks: seq<Network>, parse: Parser, entries: seq<string>): (i: int)
    requires ValidNetworks(networks)
    ensures -1 <= i < |entries|
    ensures i >= 0 ==> Candidate(networks, parse, entries[i])
    ensures forall j :: i < j < |entries| ==> !Candidate(networks, parse, entries[j])
  {
    if entries == [] then -1
    else if Candidate(networks, parse, entries[|entries| - 1]) then |entries| - 1
    else LastCandidate(networks, parse, entries[..|entries| - 1])
  }

  /** The attribution: the peer itself unless it is a trusted proxy that forwarded a
      candidate, and then the last candidate. */
  ghost function Attributed(networks: seq<Network>, parse: Parser, show: Printer, peer: string, header: string): string
    requires ValidNetworks(networks)
  {
    if !Trusted(networks, parse(peer)) then peer
    else FromEntries(networks, parse, show, peer, Split(header, ','))
  }

  ghost function FromEntries(
      networks: seq<Network>, parse: Parser, show: Printer, peer: string, entries: seq<string>): string
    requires ValidNetworks(networks)
  {
    var i := LastCandidate(networks, parse, entries);
    if i < 0 then peer else show(parse(Trim(entries[i], GoSpace)).value)
  }

  method ClientHostOf(networks: seq<Network>, parse: Parser, show: Printer, peer: string, header: string)
    returns (host: string)
    requires ValidNetworks(networks)
    ensures host == Attributed(networks, parse, show, peer, header)
  {
    hide Trusted, Trim, Split;
    var trusted := IsTrustedProxy(networks, parse(peer));
    if !trusted {
      return peer;
    }
    var forwarded := Split(header, ',');
    var i := |forwarded| - 1;
    while i >= 0
      invariant -1 <= i < |forwarded|
      invariant forall j :: i < j < |forwarded| ==> !Candidate(networks, parse, forwarded[j])
    {
      var ip := parse(Trim(forwarded[i], GoSpace));
      if ip.Some? {
        var proxy := IsTrustedProxy(networks, ip);
        if !proxy {
          assert Candidate(networks, parse, forwarded[i]);
          return show(ip.value);
        }
      }
      i := i - 1;
    }
    return peer;
  }

  /** An untrusted peer's header is never consulted. */
  lemma UntrustedHeaderIsIgnored(
      networks: seq<Network>, parse: Parser, show: Printer, peer: string, h1: string, h2: string)
    requires ValidNetworks(networks) && !Trusted(networks, parse(peer))
    ensures Attributed(networks, parse, show, peer, h1) == Attributed(networks, parse, show, peer, h2) == peer
  {
  }

  /** With a candidate among the later entries, the last one there decides. */
  lemma {:induction false} LastCandidateShifts(
      networks: seq<Network>, parse: Parser, front: seq<string>, back: seq<string>)
    requires ValidNetworks(networks)
    ensures LastCandidate(networks, parse, front + back) ==
            if LastCandidate(networks, parse, back) >= 0 then |front| + LastCandidate(networks, parse, back)
            else LastCandidate(networks, parse, front)
  {
    hide Candidate;
    if back == [] {
      assert front + back == front;
    } else {
      var all, n := front + back, |back| - 1;
      assert all[|all| - 1] == back[n];
      assert all[..|all| - 1] == front + back[..n];
      LastCandidateShifts(networks, parse, front, back[..n]);
    }
  }

  lemma EntriesInFrontAreIgnored(
      networks: seq<Network>, parse: Parser, show: Printer, peer: string, front: seq<string>, back: seq<string>)
    requires ValidNetworks(networks) && LastCandidate(networks, parse, back) >= 0
    ensures FromEntries(networks, parse, show, peer, front + back) == FromEntries(networks, parse, show, peer, back)
  {
    hide Candidate;
    LastCandidateShifts(networks, parse, front, back);
    assert (front + back)[|front| + LastCandidate(networks, parse, back)] == back[LastCandidate(networks, parse, back)];
  }

  lemma EntriesInFrontDecide(
      networks: seq<Network>, parse: Parser, show: Printer, peer: string, front: seq<string>, back: seq<string>)
    requires ValidNetworks(networks) && LastCandidate(networks, parse, back) < 0
    ensures FromEntries(networks, parse, show, peer, front + back) == FromEntries(networks, parse, show, peer, front)
  {
    hide Candidate;
    LastCandidateShifts(networks, parse, front, back);
    var i := LastCandidate(networks, parse, front);
    if i >= 0 {
      assert (front + back)[i] == front[i];
    }
  }

  /** Printing an address that was parsed and parsing it again changes nothing. */
  ghost predicate PrintsBack(parse: Parser, show: Printer) {
    forall text :: parse(text).Some? ==> parse(show(parse(text).value)) == parse(text)
  }

  /** The forwarded list names a client: it has a valid address of nobody's proxy. */
  ghost predicate NamesClient(networks: seq<Network>, parse: Parser, header: string)
    requires ValidNetworks(networks)
  {
    LastCandidate(networks, parse, Split(header, ',')) >= 0
  }

  /** Behind a trusted proxy a list that names no client is decided by the text in front
      of it alone. */
  lemma PrependedTextDecides(
      networks: seq<Network>, parse: Parser, show: Printer, peer: string, text: string, header: string)
    requires ValidNetworks(networks) && Trusted(networks, parse(peer)) && !NamesClient(networks, parse, header)
    ensures Attributed(networks, parse, show, peer, text + "," + header) ==
            Attributed(networks, parse, show, peer, text)
  {
    SplitAt(text, header, ',');
    EntriesInFrontDecide(networks, parse, show, peer, Split(text, ','), Split(header, ','));
  }

  /** A named client is never the trusted peer itself. */
  lemma NamedClientIsNotPeer(networks: seq<Network>, parse: Parser, show: Printer, peer: string, text: string)
    requires ValidNetworks(networks) && Trusted(networks, parse(peer)) && PrintsBack(parse, show)
    ensures NamesClient(networks, parse, text) <==> Attributed(networks, parse, show, peer, text) != peer
  {
    var entries := Split(text, ',');
    var i := LastCandidate(networks, parse, entries);
    if i >= 0 {
      assert Candidate(networks, parse, entries[i]);
    }
  }

  /** Text put in front of the forwarded list changes nothing, exactly unless the peer is
      trusted, the list names no client, and the text does. */
  lemma PrependedTextIsIgnoredIff(
      networks: seq<Network>, parse: Parser, show: Printer, peer: string, text: string, header: string)
    requires ValidNetworks(networks) && PrintsBack(parse, show)
    ensures
      Attributed(networks, parse, show, peer, text + "," + header) == Attributed(networks, parse, show, peer, header)
      <==>
      || !Trusted(networks, parse(peer))
      || NamesClient(networks, parse, header)
      || !NamesClient(networks, parse, text)
  {
    if Trusted(networks, parse(peer)) {
      if NamesClient(networks, parse, header) {
        PrependedTextIsIgnored(networks, parse, show, peer, text, header);
      } else {
        PrependedTextDecides(networks, parse, show, peer, text, header);
        NamedClientIsNotPeer(networks, parse, show, peer, text);
        NamedClientIsNotPeer(networks, parse, show, peer, header);
      }
    }
  }

  /** The half that needs nothing of parsing and printing: a list that names a client is
      immune to text put in front of it. */
  lemma PrependedTextIsIgnored(
      networks: seq<Network>, parse: Parser, show: Printer, peer: string, text: string, header: string)
    requires ValidNetworks(networks) && NamesClient(networks, parse, header)
    ensures Attributed(networks, parse, show, peer, text + "," + header) ==
            Attributed(networks, parse, show, peer, header)
  {
    SplitAt(text, header, ',');
    EntriesInFrontAreIgnored(networks, parse, show, peer, Split(text, ','), Split(header, ','));
  }

  /** An entry that stands for no client: with the white space around it taken off it is no
      address, or a trusted proxy's. */
  ghost predicate NoClient(networks: seq<Network>, parse: Parser, entry: string)
    requires ValidNetworks(networks)
  {
    exists text :: Padded(entry, text, GoSpace) && (parse(text).Some? ==> Trusted(networks, parse(text)))
  }

  lemma CandidateIff(networks: seq<Network>, parse: Parser, entry: string)
    requires ValidNetworks(networks)
    ensures Candidate(networks, parse, entry) <==> !NoClient(networks, parse, entry)
  {
    hide Trim, Padded, Trusted;
    TrimIffPadded(entry, Trim(entry, GoSpace), GoSpace);
    forall text | Padded(entry, text, GoSpace) ensures text == Trim(entry, GoSpace) {
      TrimIffPadded(entry, text, GoSpace);
    }
  }

  /** Behind a trusted proxy, an address in the list, with white space around it, that is no
      proxy's, and after which nothing stands for a client, is who the request comes from. */
  lemma ForwardedClientIsAttributed(
      networks: seq<Network>, parse: Parser, show: Printer, peer: string, header: string,
      front: seq<string>, entry: string, text: string, back: seq<string>)
    requires ValidNetworks(networks) && Trusted(networks, parse(peer))
    requires Split(header, ',') == front + [entry] + back
    requires Padded(entry, text, GoSpace) && parse(text).Some? && !Trusted(networks, parse(text))
    requires forall i :: 0 <= i < |back| ==> NoClient(networks, parse, back[i])
    ensures Attributed(networks, parse, show, peer, header) == show(parse(text).value)
  {
    hide Trusted, Padded, NoClient, Candidate, Split;
    var all, n := front + [entry] + back, |front|;
    TrimIffPadded(entry, text, GoSpace);
    assert all[n] == entry;
    assert Candidate(networks, parse, entry) by {
      CandidateIff(networks, parse, entry);
      OnePadding(networks, parse, entry, text);
    }
    forall j | n < j < |all| ensures !Candidate(networks, parse, all[j]) {
      assert all[j] == back[j - n - 1];
      CandidateIff(networks, parse, all[j]);
    }
  }

  lemma OnePadding(networks: seq<Network>, parse: Parser, entry: string, text: string)
    requires ValidNetworks(networks) && Padded(entry, text, GoSpace)
    requires parse(text).Some? && !Trusted(networks, parse(text))
    ensures !NoClient(networks, parse, entry)
  {
    hide Padded, Trusted;
    TrimIffPadded(entry, text, GoSpace);
    forall other | Padded(entry, other, GoSpace) ensures other == text {
      TrimIffPadded(entry, other, GoSpace);
    }
  }

  /** A list of which nothing stands for a client leaves the peer. */
  lemma NobodyForwardedLeavesPeer(
      networks: seq<Network>, parse: Parser, show: Printer, peer: string, header: string)
    requires ValidNetworks(networks)
    requires forall i :: 0 <= i < |Split(header, ',')| ==> NoClient(networks, parse, Split(header, ',')[i])
    ensures Attributed(networks, parse, show, peer, header) == peer
  {
    hide Trusted, NoClient, Candidate;
    var entries := Split(header, ',');
    forall i | 0 <= i < |entries| ensures !Candidate(networks, parse, entries[i]) {
      CandidateIff(networks, parse, entries[i]);
    }
  }

  // ----- an instance in which the text counts -----

  const PROXY := V4(0x0A00_0001)
  const GUEST := V4(0xC000_0207)

  function ExampleParse(text: string): Option<IP> {
    if text == "10.0.0.1" then Some(PROXY) else if text == "192.0.2.7" then Some(GUEST) else None
  }

  function ExampleShow(ip: IP): string {
    if ip == PROXY then "10.0.0.1" else "192.0.2.7"
  }

  lemma OnlyProxyIsTrusted(ip: Option<IP>)
    requires ip.Some? ==> ip.value.V4?
    ensures ValidNetworks([Network(PROXY, 32)])
    ensures Trusted([Network(PROXY, 32)], ip) <==> ip == Some(PROXY)
  {
    var n := Network(PROXY, 32);
    if ip.Some? {
      NetworkIsRange(n, ip.value);
      assert Size(n) == 1;
      assert Contains([n][0], ip.value) <==> ip == Some(PROXY);
    }
  }

  /** The proxy 10.0.0.1 is trusted and forwards an empty list, behind a client's own claim
      to be 192.0.2.7. */
  lemma EmptyListIsSpoofable()
    ensures
      var networks := [Network(PROXY, 32)];
      && ValidNetworks(networks) && PrintsBack(ExampleParse, ExampleShow)
      && Attributed(networks, ExampleParse, ExampleShow, "10.0.0.1", "") == "10.0.0.1"
      && Attributed(networks, ExampleParse, ExampleShow, "10.0.0.1", "192.0.2.7,") == "192.0.2.7"
  {
    hide Attributed, LastCandidate, Trusted, Split;
    ExampleAddresses();
    ExampleAttribution("");
    ExampleAttribution("192.0.2.7");
    PrependedTextDecides([Network(PROXY, 32)], ExampleParse, ExampleShow, "10.0.0.1", "192.0.2.7", "");
    assert "192.0.2.7" + "," + "" == "192.0.2.7,";
  }

  lemma ExampleAddresses()
    ensures ExampleParse("10.0.0.1") == Some(PROXY) && ExampleShow(PROXY) == "10.0.0.1"
    ensures ExampleParse("192.0.2.7") == Some(GUEST) && ExampleShow(GUEST) == "192.0.2.7"
    ensures ExampleParse("") == None && PrintsBack(ExampleParse, ExampleShow)
  {
  }

  /** One entry in this instance. */
  lemma ExampleAttribution(text: string)
    requires ',' !in text && (text != "" ==> !GoSpace(text[0]) && !GoSpace(text[|text| - 1]))
    ensures
      var networks := [Network(PROXY, 32)];
      && ValidNetworks(networks) && Trusted(networks, ExampleParse("10.0.0.1"))
      && (NamesClient(networks, ExampleParse, text) <==> ExampleParse(text) == Some(GUEST))
      && Attributed(networks, ExampleParse, ExampleShow, "10.0.0.1", text) ==
           if ExampleParse(text) == Some(GUEST) then "192.0.2.7" else "10.0.0.1"
  {
    hide Attributed, LastCandidate, Trusted, Split;
    OnlyProxyIsTrusted(ExampleParse(text));
    OnlyProxyIsTrusted(ExampleParse("10.0.0.1"));
    OneEntry([Network(PROXY, 32)], ExampleParse, ExampleShow, "10.0.0.1", text);
  }

  lemma OneEntry(networks: seq<Network>, parse: Parser, show: Printer, peer: string, text: string)
    requires ValidNetworks(networks) && Trusted(networks, parse(peer)) && ',' !in text
    requires text != "" ==> !GoSpace(text[0]) && !GoSpace(text[|text| - 1])
    ensures NamesClient(networks, parse, text) <==> parse(text).Some? && !Trusted(networks, parse(text))
    ensures Attributed(networks, parse, show, peer, text) ==
            if parse(text).Some? && !Trusted(networks, parse(text)) then show(parse(text).value) else peer
  {
    SplitPlain(text, ',');
    TrimNothing(text, GoSpace);
    assert [text][..0] == [];
  }

  // ----- the lockout key -----

  function AuthKey(room: string, host: string): string {
    room + "|" + host
  }

  /** Keys of different configured rooms or hosts differ, because no room ID contains a bar. */
  lemma AuthKeysAreDistinct(room1: string, host1: string, room2: string, host2: string)
    requires ValidRoomId(room1) && ValidRoomId(room2) && AuthKey(room1, host1) == AuthKey(room2, host2)
    ensures room1 == room2 && host1 == host2
  {
    var key := AuthKey(room1, host1);
    SplitAt(room1, host1, '|');
    SplitAt(room2, host2, '|');
    SplitPlain(room1, '|');
    SplitPlain(room2, '|');
    assert Split(key, '|')[0] == room1 == room2;
    assert key[|room1| + 1..] == host1 && key[|room2| + 1..] == host2;
  }
}
