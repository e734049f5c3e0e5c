/** The WireGuard configuration handed to a client. */
module ClientConfig {
  import opened Wrappers
  import opened Text
  import opened Rows
  import opened ServerConfig
  import Decimal
  import IPv4

  function DnsLines(network: Network): seq<string> {
    if network.dns.Some? && network.dns.value != "" then ["DNS = " + network.dns.value] else []
  }

  function Endpoint(network: Network): string {
    network.endpoint + ":" + Decimal.Print(network.listenPort)
  }

  function ClientLines(network: Network, privateKey: string, address: string, serverKey: string, routes: string): seq<string> {
    ["[Interface]", "PrivateKey = " + privateKey, "Address = " + address] + DnsLines(network)
    + ["", "[Peer]", "PublicKey = " + serverKey, "Endpoint = " + Endpoint(network), "AllowedIPs = " + routes,
       "PersistentKeepalive = 25"]
  }

  /** Without routes of its own, a client is given the whole VPN network. */
  function ClientRoutes(network: Network, allowedIps: Option<string>): Result<string, ConfigError> {
    if allowedIps.Some? && allowedIps.value != "" then Ok(allowedIps.value)
    else
      match IPv4.Parse(network.addressCidr)
      case None => Err(InvalidInterface)
      case Some(interface) => Ok(IPv4.Print(IPv4.Network(interface)))
  }

  function RenderClient(network: Network, privateKey: string, address: string, serverKey: string, allowedIps: Option<string>)
    : Result<string, ConfigError>
  {
    match ClientRoutes(network, allowedIps)
    case Err(e) => Err(e)
    case Ok(routes) => Ok(Join(ClientLines(network, privateKey, address, serverKey, routes), "\n") + "\n")
  }

  /** The renderer as written: a growing list of lines. */
  method RenderClientConfig(network: Network, privateKey: string, address: string, serverKey: string, allowedIps: Option<string>)
    returns (r: Result<string, ConfigError>)
    ensures r == RenderClient(network, privateKey, address, serverKey, allowedIps)
  {
    hide IPv4.Parse, IPv4.Print, IPv4.Network;
    var routes := ClientRoutes(network, allowedIps);
    if routes.Err? {
      return Err(routes.error);
    }
    var lines := ["[Interface]", "PrivateKey = " + privateKey, "Address = " + address];
    if network.dns.Some? && network.dns.value != "" {
      lines := lines + ["DNS = " + network.dns.value];
    }
    lines := lines + ["", "[Peer]", "PublicKey = " + serverKey, "Endpoint = " + Endpoint(network), "AllowedIPs = " + routes.value,
                      "PersistentKeepalive = 25"];
    assert lines == ClientLines(network, privateKey, address, serverKey, routes.value);
    r := Ok(Join(lines, "\n") + "\n");
  }

  // ---- reading it back

  function InterfaceSection(network: Network, privateKey: string, address: string): Section {
    Section("[Interface]",
            [Entry("PrivateKey", privateKey), Entry("Address", address)]
            + (if network.dns.Some? && network.dns.value != "" then [Entry("DNS", network.dns.value)] else []))
  }

  function ServerSection(network: Network, serverKey: string, routes: string): Section {
    Section("[Peer]", [Entry("PublicKey", serverKey), Entry("Endpoint", network.endpoint + ":" + Decimal.Print(network.listenPort)),
                       Entry("AllowedIPs", routes), Entry("PersistentKeepalive", "25")])
  }

  lemma Keys()
    ensures Letters("DNS") && Letters("Endpoint") && Clean("25")
  {
  }

  /** Lines before the fields of the network's administrator. */
  lemma InterfaceOpens(privateKey: string, address: string, rest: seq<string>)
    requires Clean(privateKey) && Clean(address)
    ensures ReadSections(["[Interface]", "PrivateKey = " + privateKey, "Address = " + address] + rest, [])
         == ReadSections(rest, [Section("[Interface]", [Entry("PrivateKey", privateKey), Entry("Address", address)])])
  {
    hide AddLine, Clean;
    var l2 := ["Address = " + address] + rest;
    var l1 := ["PrivateKey = " + privateKey] + l2;
    var e1, e2 := Entry("PrivateKey", privateKey), Entry("Address", address);
    assert ["[Interface]", "PrivateKey = " + privateKey, "Address = " + address] + rest == ["[Interface]"] + l1;
    OneMoreLine("[Interface]", l1, []);
    HeadingLine([], "[Interface]");
    InterfaceKeys();
    assert [] + [Section("[Interface]", [])] == [Section("[Interface]", [])];
    InterfaceEntry("PrivateKey = " + privateKey, [], "PrivateKey", privateKey, l2);
    assert [] + [e1] == [e1];
    InterfaceEntry("Address = " + address, [e1], "Address", address, rest);
    assert [e1] + [e2] == [e1, e2];
  }

  lemma ServerOpens(serverKey: string, rest: seq<string>, done: seq<Section>)
    requires Clean(serverKey)
    ensures ReadSections(["", "[Peer]", "PublicKey = " + serverKey] + rest, done)
         == ReadSections(rest, done + [Section("[Peer]", [Entry("PublicKey", serverKey)])])
  {
    hide AddLine, Clean;
    var l1 := ["PublicKey = " + serverKey] + rest;
    var e1 := Entry("PublicKey", serverKey);
    assert ["", "[Peer]", "PublicKey = " + serverKey] + rest == [""] + (["[Peer]"] + l1);
    OneMoreLine("", ["[Peer]"] + l1, done);
    CommentLine(done, "");
    OneMoreLine("[Peer]", l1, done);
    HeadingLine(done, "[Peer]");
    PeerKeys();
    NextEntry("PublicKey = " + serverKey, done, "[Peer]", [], "PublicKey", serverKey, rest);
    assert [] + [e1] == [e1];
  }

  function RouteLines(routes: string): seq<string> {
    ["AllowedIPs = " + routes, "PersistentKeepalive = 25"]
  }

  lemma RoutesClose(routes: string, done: seq<Section>, e1: Entry, e2: Entry)
    requires Clean(routes)
    ensures ReadSections(RouteLines(routes), done + [Section("[Peer]", [e1, e2])])
         == done + [Section("[Peer]", [e1, e2, Entry("AllowedIPs", routes), Entry("PersistentKeepalive", "25")])]
  {
    hide AddLine, Clean;
    var e3, e4 := Entry("AllowedIPs", routes), Entry("PersistentKeepalive", "25");
    var last := ["PersistentKeepalive = 25"];
    PeerKeys();
    Keys();
    assert RouteLines(routes) == ["AllowedIPs = " + routes] + last;
    NextEntry("AllowedIPs = " + routes, done, "[Peer]", [e1, e2], "AllowedIPs", routes, last);
    assert [e1, e2] + [e3] == [e1, e2, e3];
    assert "PersistentKeepalive = 25" == "PersistentKeepalive" + " = " + "25";
    NextEntry("PersistentKeepalive = 25", done, "[Peer]", [e1, e2, e3], "PersistentKeepalive", "25", []);
    assert [e1, e2, e3] + [e4] == [e1, e2, e3, e4];
    assert last + [] == last;
  }

  // ---- a field that its line does not carry

  /** What is read stays: later lines only add sections, or entries to the last one. */
  ghost predicate Extends(a: seq<Section>, b: seq<Section>) {
    a == [] || (|a| <= |b| && a[..|a| - 1] == b[..|a| - 1]
                && a[|a| - 1].name == b[|a| - 1].name && a[|a| - 1].entries <= b[|a| - 1].entries)
  }

  lemma AddLineExtends(sections: seq<Section>, line: string)
    ensures Extends(sections, AddLine(sections, line))
  {
    hide Strip;
  }

  lemma ExtendsTransitive(a: seq<Section>, b: seq<Section>, c: seq<Section>)
    requires Extends(a, b) && Extends(b, c) && (a != [] ==> b != [])
    ensures Extends(a, c)
  {
    if a != [] {
      assert b[..|b| - 1][..|a| - 1] == b[..|a| - 1] && c[..|b| - 1][..|a| - 1] == c[..|a| - 1];
      if |a| < |b| {
        assert b[|a| - 1] == b[..|b| - 1][|a| - 1] && c[|a| - 1] == c[..|b| - 1][|a| - 1];
      }
    }
  }

  lemma {:induction false} ReadExtends(lines: seq<string>, sections: seq<Section>)
    ensures Extends(sections, ReadSections(lines, sections))
    decreases |lines|
  {
    if lines == [] {
    } else {
      var next := AddLine(sections, lines[0]);
      hide AddLine;
      AddLineExtends(sections, lines[0]);
      ReadExtends(lines[1..], next);
      ExtendsTransitive(sections, next, ReadSections(lines[1..], next));
    }
  }

  /** The value that a reader takes from the line of a field. */
  function Carried(v: string): string {
    Strip(Before(Split(v, '\n')[0], '#'))
  }

  /** A line carries a non-empty value unchanged if and only if the value is clean. */
  lemma CarriedIffClean(v: string)
    requires v != ""
    ensures Carried(v) == v <==> Clean(v)
  {
    if Clean(v) {
      SplitWithout(v, '\n');
      CleanValue(v);
    }
    if Carried(v) == v {
      var line := Split(v, '\n')[0];
      SplitPartsFree(v, '\n');
      BeforeKeeps(line, '#', '\n');
      StripIsStripped(Before(line, '#'));
      StripKeeps(Before(line, '#'), '\n');
      StripKeeps(Before(line, '#'), '#');
    }
  }

  lemma {:induction false} BeforeKeeps(s: string, c: char, d: char)
    requires d !in s
    ensures d !in Before(s, c) && c !in Before(s, c)
  {
    if s == "" {
    } else {
      BeforeKeeps(s[1..], c, d);
    }
  }

  lemma BrokenField(key: string, v: string)
    requires Letters(key)
    ensures Broken([key + " = " + v]) == [key + " = " + Split(v, '\n')[0]] + Split(v, '\n')[1..]
  {
    SplitAfter(key + " = ", v, '\n');
    BrokenCons(key + " = " + v, []);
    assert [key + " = " + v] + [] == [key + " = " + v];
    assert Broken([]) == [];
    assert Split(key + " = " + v, '\n') + [] == Split(key + " = " + v, '\n');
  }

  lemma ExtendsLast(done: seq<Section>, s: Section, r: seq<Section>)
    requires Extends(done + [s], r)
    ensures |r| > |done| && s.entries <= r[|done|].entries
  {
    assert (done + [s])[|done|] == s;
  }

  /** Whatever the field says, its entry takes the carried value, and keeps its place. */
  lemma FieldStays(line: string, key: string, v: string, rest: seq<string>, done: seq<Section>, name: string, entries: seq<Entry>)
    requires Letters(key) && line == key + " = " + v
    ensures var r := ReadSections(Broken([line]) + rest, done + [Section(name, entries)]);
            |r| > |done| && |r[|done|].entries| > |entries| && r[|done|].entries[|entries|] == Entry(key, Carried(v))
  {
    var parts, last := Split(v, '\n'), Section(name, entries);
    var first, next := key + " = " + parts[0], Section(name, entries + [Entry(key, Carried(v))]);
    BrokenField(key, v);
    LettersAreClean(key);
    LineIsEntry(done + [last], key, parts[0]);
    hide AddLine, Strip, Letters, Clean;
    assert (done + [last])[..|done|] == done;
    Associate([first], parts[1..], rest);
    OneMoreLine(first, parts[1..] + rest, done + [last]);
    ReadExtends(parts[1..] + rest, done + [next]);
    ExtendsLast(done, next, ReadSections(parts[1..] + rest, done + [next]));
    assert (entries + [Entry(key, Carried(v))])[|entries|] == Entry(key, Carried(v));
  }

  // ---- when the text reads as its fields

  /** The fields of the network's administrator that the text carries. */
  predicate FieldsCarried(network: Network) {
    (network.dns.Some? && network.dns.value != "" ==> Carried(network.dns.value) == network.dns.value)
    && Carried(Endpoint(network)) == Endpoint(network)
  }

  lemma FieldsCarriedIffClean(network: Network)
    ensures FieldsCarried(network) <==>
              Clean(Endpoint(network)) && forall d :: network.dns == Some(d) && d != "" ==> Clean(d)
  {
    CarriedIffClean(Endpoint(network));
    if network.dns.Some? && network.dns.value != "" {
      CarriedIffClean(network.dns.value);
    }
  }

  /** The lines of the text as a reader sees them. */
  lemma ClientTextLines(network: Network, privateKey: string, address: string, serverKey: string, routes: string)
    requires Clean(privateKey) && Clean(address) && Clean(serverKey) && Clean(routes)
    ensures var text := Join(ClientLines(network, privateKey, address, serverKey, routes), "\n") + "\n";
            Lines(text) == ["[Interface]", "PrivateKey = " + privateKey, "Address = " + address]
                           + (Broken(DnsLines(network))
                              + (["", "[Peer]", "PublicKey = " + serverKey]
                                 + (Broken(["Endpoint = " + Endpoint(network)]) + RouteLines(routes))))
  {
    var first, peer := ["[Interface]", "PrivateKey = " + privateKey, "Address = " + address], ["", "[Peer]", "PublicKey = " + serverKey];
    var dns, endpoint, last := DnsLines(network), ["Endpoint = " + Endpoint(network)], RouteLines(routes);
    assert ClientLines(network, privateKey, address, serverKey, routes) == first + (dns + (peer + (endpoint + last)));
    FixedLinesAreLines(privateKey, address, serverKey, routes);
    hide Endpoint, DnsLines, Clean;
    LinesOfJoined(first + (dns + (peer + (endpoint + last))));
    BrokenConcat(first, dns + (peer + (endpoint + last)));
    BrokenConcat(dns, peer + (endpoint + last));
    BrokenConcat(peer, endpoint + last);
    BrokenConcat(endpoint, last);
    BrokenUnbroken(first);
    BrokenUnbroken(peer);
    BrokenUnbroken(last);
  }

  lemma FixedLinesAreLines(privateKey: string, address: string, serverKey: string, routes: string)
    requires Clean(privateKey) && Clean(address) && Clean(serverKey) && Clean(routes)
    ensures LineFree(["[Interface]", "PrivateKey = " + privateKey, "Address = " + address])
    ensures LineFree(["", "[Peer]", "PublicKey = " + serverKey]) && LineFree(RouteLines(routes))
  {
  }

  /** The endpoint and what follows, in the section of the server. */
  lemma EndpointReads(network: Network, serverKey: string, routes: string, done: seq<Section>)
    requires Clean(serverKey) && Clean(routes)
    ensures var r := ReadSections(Broken(["Endpoint = " + Endpoint(network)]) + RouteLines(routes),
                                  done + [Section("[Peer]", [Entry("PublicKey", serverKey)])]);
            r == done + [ServerSection(network, serverKey, routes)] <==> Carried(Endpoint(network)) == Endpoint(network)
  {
    var v, e1 := Endpoint(network), Entry("PublicKey", serverKey);
    CarriedIffClean(v);
    hide Clean, Carried;
    if Carried(v) == v {
      CarriedEndpoint(network, serverKey, routes, done);
    } else {
      Keys();
      hide Endpoint, AddLine, RouteLines;
      FieldStays("Endpoint = " + v, "Endpoint", v, RouteLines(routes), done, "[Peer]", [e1]);
      assert (done + [ServerSection(network, serverKey, routes)])[|done|].entries[1] == Entry("Endpoint", v);
    }
  }

  lemma CarriedEndpoint(network: Network, serverKey: string, routes: string, done: seq<Section>)
    requires Clean(routes) && Clean(Endpoint(network))
    ensures ReadSections(Broken(["Endpoint = " + Endpoint(network)]) + RouteLines(routes),
                         done + [Section("[Peer]", [Entry("PublicKey", serverKey)])])
         == done + [ServerSection(network, serverKey, routes)]
  {
    var v, e1 := Endpoint(network), Entry("PublicKey", serverKey);
    var e2 := Entry("Endpoint", v);
    assert ServerSection(network, serverKey, routes).entries[1] == e2;
    Keys();
    hide Endpoint, AddLine, Clean, RouteLines;
    BrokenUnbrokenField("Endpoint = " + v, "Endpoint", v);
    NextEntry("Endpoint = " + v, done, "[Peer]", [e1], "Endpoint", v, RouteLines(routes));
    assert [e1] + [e2] == [e1, e2];
    RoutesClose(routes, done, e1, e2);
  }

  lemma BrokenUnbrokenField(line: string, key: string, v: string)
    requires Letters(key) && Clean(v) && line == key + " = " + v
    ensures Broken([line]) == [line]
  {
    BrokenUnbroken([line]);
  }

  /**
   * A client that reads its configuration section by section gets exactly the fields it was rendered from if and only if
   * the lines carry the endpoint and the DNS server.
   */
  lemma RenderedClientReads(network: Network, privateKey: string, address: string, serverKey: string, allowedIps: Option<string>)
    requires ClientRoutes(network, allowedIps).Ok? && Clean(ClientRoutes(network, allowedIps).value)
    requires Clean(privateKey) && Clean(address) && Clean(serverKey)
    ensures ReadSections(Lines(RenderClient(network, privateKey, address, serverKey, allowedIps).value), [])
         == [InterfaceSection(network, privateKey, address), ServerSection(network, serverKey, ClientRoutes(network, allowedIps).value)]
         <==> FieldsCarried(network)
  {
    var routes := ClientRoutes(network, allowedIps).value;
    var text := RenderClient(network, privateKey, address, serverKey, allowedIps).value;
    var tail := Broken(["Endpoint = " + Endpoint(network)]) + RouteLines(routes);
    var peer := ["", "[Peer]", "PublicKey = " + serverKey] + tail;
    ClientTextLines(network, privateKey, address, serverKey, routes);
    InterfaceOpens(privateKey, address, Broken(DnsLines(network)) + peer);
    hide RenderClient, ClientRoutes, Endpoint, Clean, RouteLines, Carried;
    var i := InterfaceSection(network, privateKey, address);
    ServerOpens(serverKey, tail, [i]);
    EndpointReads(network, serverKey, routes, [i]);
    assert [i] + [ServerSection(network, serverKey, routes)] == [i, ServerSection(network, serverKey, routes)];
    DnsReads(network, privateKey, address, peer, ServerSection(network, serverKey, routes));
  }

  /** With a DNS server that its line carries the interface section is complete; with another it never is. */
  lemma DnsReads(network: Network, privateKey: string, address: string, rest: seq<string>, server: Section)
    ensures var begun := [Section("[Interface]", [Entry("PrivateKey", privateKey), Entry("Address", address)])];
            var r := ReadSections(Broken(DnsLines(network)) + rest, begun);
            if network.dns.Some? && network.dns.value != "" && Carried(network.dns.value) != network.dns.value
            then r != [InterfaceSection(network, privateKey, address), server]
            else r == ReadSections(rest, [InterfaceSection(network, privateKey, address)])
  {
    var e1, e2 := Entry("PrivateKey", privateKey), Entry("Address", address);
    if network.dns.None? || network.dns.value == "" {
      assert Broken([]) == [] && [] + rest == rest;
      assert InterfaceSection(network, privateKey, address).entries == [e1, e2];
    } else {
      var v := network.dns.value;
      var i := InterfaceSection(network, privateKey, address);
      assert i == Section("[Interface]", [e1, e2] + [Entry("DNS", v)]);
      Keys();
      FieldStays("DNS = " + v, "DNS", v, rest, [], "[Interface]", [e1, e2]);
      assert [] + [Section("[Interface]", [e1, e2])] == [Section("[Interface]", [e1, e2])];
      CarriedIffClean(v);
      hide AddLine, Clean, Carried, InterfaceSection;
      if Carried(v) == v {
        BrokenUnbrokenField("DNS = " + v, "DNS", v);
        InterfaceEntry("DNS = " + v, [e1, e2], "DNS", v, rest);
      } else {
        assert [i, server][0].entries[2] == Entry("DNS", v);
      }
    }
  }

  // ---- what is read where a line does not carry the endpoint

  /** An endpoint on one line reads as what its line carries, and the rest of the section is unharmed. */
  lemma OneLineEndpoint(network: Network, serverKey: string, routes: string, done: seq<Section>)
    requires Clean(routes) && '\n' !in Endpoint(network)
    ensures ReadSections(Broken(["Endpoint = " + Endpoint(network)]) + RouteLines(routes),
                         done + [Section("[Peer]", [Entry("PublicKey", serverKey)])])
         == done + [CarriedSection(serverKey, Carried(Endpoint(network)), routes)]
  {
    var v, e1 := Endpoint(network), Entry("PublicKey", serverKey);
    var e2 := Entry("Endpoint", Carried(v));
    Keys();
    hide Clean, RouteLines, Carried, Endpoint, Letters;
    OneLineField("Endpoint = " + v, "Endpoint", v, RouteLines(routes), done, "[Peer]", [e1]);
    assert [e1] + [e2] == [e1, e2];
    RoutesClose(routes, done, e1, e2);
  }

  lemma OneLineField(line: string, key: string, v: string, rest: seq<string>, done: seq<Section>, name: string, entries: seq<Entry>)
    requires Letters(key) && line == key + " = " + v && '\n' !in v
    ensures ReadSections(Broken([line]) + rest, done + [Section(name, entries)])
         == ReadSections(rest, done + [Section(name, entries + [Entry(key, Carried(v))])])
  {
    var last := Section(name, entries);
    LettersAreClean(key);
    SplitWithout(v, '\n');
    BrokenUnbroken([line]);
    LineIsEntry(done + [last], key, v);
    hide AddLine, Strip, Letters, Clean;
    assert (done + [last])[..|done|] == done;
    OneMoreLine(line, rest, done + [last]);
  }

  function CarriedSection(serverKey: string, endpoint: string, routes: string): Section {
    Section("[Peer]", [Entry("PublicKey", serverKey), Entry("Endpoint", endpoint), Entry("AllowedIPs", routes),
                       Entry("PersistentKeepalive", "25")])
  }

  /** An endpoint with a comment sign: the client reads what stands before the sign, and no port. */
  lemma CutEndpointReads(network: Network, privateKey: string, address: string, serverKey: string, allowedIps: Option<string>,
                         host: string, rest: string)
    requires ClientRoutes(network, allowedIps).Ok? && Clean(ClientRoutes(network, allowedIps).value)
    requires Clean(privateKey) && Clean(address) && Clean(serverKey)
    requires network.endpoint == host + "#" + rest && Clean(host) && '\n' !in rest && network.dns.None?
    ensures ReadSections(Lines(RenderClient(network, privateKey, address, serverKey, allowedIps).value), [])
         == [InterfaceSection(network, privateKey, address),
             CarriedSection(serverKey, host, ClientRoutes(network, allowedIps).value)]
    ensures host != Endpoint(network)
  {
    CutEndpoint(network, host, rest);
    hide ClientRoutes, RenderClient, Endpoint, Clean, Carried;
    var routes := ClientRoutes(network, allowedIps).value;
    LinesWithoutDns(network, privateKey, address, serverKey, allowedIps);
    PlainInterface(network, privateKey, address);
    hide InterfaceSection, RouteLines, ServerTail;
    var i, tail := InterfaceSection(network, privateKey, address), ServerTail(network, routes);
    var peer := ["", "[Peer]", "PublicKey = " + serverKey] + tail;
    InterfaceOpens(privateKey, address, peer);
    ServerOpens(serverKey, tail, [i]);
    CutTail(network, serverKey, routes, [i], host);
    assert [i] + [CarriedSection(serverKey, host, routes)] == [i, CarriedSection(serverKey, host, routes)];
  }

  /** The line of the endpoint as a reader sees it, and the two behind it. */
  function ServerTail(network: Network, routes: string): seq<string> {
    Broken(["Endpoint = " + Endpoint(network)]) + RouteLines(routes)
  }

  lemma CutTail(network: Network, serverKey: string, routes: string, done: seq<Section>, host: string)
    requires Clean(routes) && '\n' !in Endpoint(network) && Carried(Endpoint(network)) == host
    ensures ReadSections(ServerTail(network, routes), done + [Section("[Peer]", [Entry("PublicKey", serverKey)])])
         == done + [CarriedSection(serverKey, host, routes)]
  {
    hide Clean, Carried, Endpoint, RouteLines;
    OneLineEndpoint(network, serverKey, routes, done);
  }

  lemma PlainInterface(network: Network, privateKey: string, address: string)
    requires network.dns.None?
    ensures InterfaceSection(network, privateKey, address)
         == Section("[Interface]", [Entry("PrivateKey", privateKey), Entry("Address", address)])
  {
  }

  lemma LinesWithoutDns(network: Network, privateKey: string, address: string, serverKey: string, allowedIps: Option<string>)
    requires ClientRoutes(network, allowedIps).Ok? && Clean(ClientRoutes(network, allowedIps).value)
    requires Clean(privateKey) && Clean(address) && Clean(serverKey) && network.dns.None?
    ensures Lines(RenderClient(network, privateKey, address, serverKey, allowedIps).value)
         == ["[Interface]", "PrivateKey = " + privateKey, "Address = " + address]
            + (["", "[Peer]", "PublicKey = " + serverKey] + ServerTail(network, ClientRoutes(network, allowedIps).value))
  {
    hide ClientRoutes, Clean, Endpoint, RouteLines;
    var routes := ClientRoutes(network, allowedIps).value;
    ClientTextLines(network, privateKey, address, serverKey, routes);
    var peer := ["", "[Peer]", "PublicKey = " + serverKey] + ServerTail(network, routes);
    assert Broken(DnsLines(network)) + peer == peer;
  }

  lemma CutEndpoint(network: Network, host: string, rest: string)
    requires network.endpoint == host + "#" + rest && Clean(host) && '\n' !in rest
    ensures Carried(Endpoint(network)) == host && '\n' !in Endpoint(network) && host != Endpoint(network)
  {
    var v := Endpoint(network);
    Decimal.PrintShape(network.listenPort);
    assert '\n' !in v;
    SplitWithout(v, '\n');
    assert v == host + ['#'] + v[|host| + 1..];
    BeforeAfterOf(host, '#', v[|host| + 1..]);
    StripStripped(host);
  }
}
