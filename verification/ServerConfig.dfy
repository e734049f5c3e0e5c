/** The WireGuard server configuration: rendering, and a section-by-section reading of the text. */
module ServerConfig {
  import opened Wrappers
  import opened Text
  import opened Rows
  import Decimal
  import IPv4
  import X25519
  import Base64

  datatype ConfigError = InvalidKey | InvalidInterface

  // ---- rendering

  function HeaderLines(network: Network, route: string, privateKey: string): seq<string> {
    ["[Interface]",
     "PrivateKey = " + privateKey,
     "Address = " + network.addressCidr,
     "ListenPort = " + Decimal.Print(network.listenPort),
     "PostUp = " + PostUp(route),
     "PostDown = " + PostDown(route)]
  }

  function PostUp(route: string): string {
    Rules("-A ", route)
  }

  function PostDown(route: string): string {
    Rules("-D ", route)
  }

  /** Forwarding and masquerading rules, added with -A when the interface comes up and deleted with -D. */
  function Rules(verb: string, route: string): string {
    ForwardIn(verb) + ForwardOut(verb) + Masquerade(verb, route)
  }

  function ForwardIn(verb: string): string {
    "iptables " + verb + "FORWARD -i %i -j ACCEPT; "
  }

  function ForwardOut(verb: string): string {
    "iptables " + verb + "FORWARD -o %i -m conntrack " + "--ctstate RELATED,ESTABLISHED -j ACCEPT; "
  }

  function Masquerade(verb: string, route: string): string {
    "iptables -t nat " + verb + "POSTROUTING -s " + route + " -j MASQUERADE"
  }

  lemma InAdded(verb: string)
    requires verb == "-A "
    ensures ForwardIn(verb) == "iptables -A FORWARD -i %i -j ACCEPT; "
  {
  }

  lemma OutAdded(verb: string)
    requires verb == "-A "
    ensures ForwardOut(verb) == "iptables -A FORWARD -o %i -m conntrack " + "--ctstate RELATED,ESTABLISHED -j ACCEPT; "
  {
  }

  lemma MasqueradeAdded(verb: string, route: string)
    requires verb == "-A "
    ensures Masquerade(verb, route) == "iptables -t nat -A POSTROUTING -s " + route + " -j MASQUERADE"
  {
  }

  lemma InDeleted(verb: string)
    requires verb == "-D "
    ensures ForwardIn(verb) == "iptables -D FORWARD -i %i -j ACCEPT; "
  {
  }

  lemma OutDeleted(verb: string)
    requires verb == "-D "
    ensures ForwardOut(verb) == "iptables -D FORWARD -o %i -m conntrack " + "--ctstate RELATED,ESTABLISHED -j ACCEPT; "
  {
  }

  lemma MasqueradeDeleted(verb: string, route: string)
    requires verb == "-D "
    ensures Masquerade(verb, route) == "iptables -t nat -D POSTROUTING -s " + route + " -j MASQUERADE"
  {
  }

  /** The rules in full: stopping deletes exactly what starting adds. */
  lemma FirewallRules(route: string)
    ensures PostUp(route)
         == "iptables -A FORWARD -i %i -j ACCEPT; "
            + ("iptables -A FORWARD -o %i -m conntrack " + "--ctstate RELATED,ESTABLISHED -j ACCEPT; ")
            + ("iptables -t nat -A POSTROUTING -s " + route + " -j MASQUERADE")
    ensures PostDown(route)
         == "iptables -D FORWARD -i %i -j ACCEPT; "
            + ("iptables -D FORWARD -o %i -m conntrack " + "--ctstate RELATED,ESTABLISHED -j ACCEPT; ")
            + ("iptables -t nat -D POSTROUTING -s " + route + " -j MASQUERADE")
  {
    hide ForwardIn, ForwardOut, Masquerade;
    InAdded("-A ");
    OutAdded("-A ");
    MasqueradeAdded("-A ", route);
    InDeleted("-D ");
    OutDeleted("-D ");
    MasqueradeDeleted("-D ", route);
  }

  function PeerLines(p: Peer): seq<string> {
    ["", "[Peer]", "# " + p.name] + FieldLines(p)
  }

  function FieldLines(p: Peer): seq<string> {
    ["PublicKey = " + p.publicKey, "AllowedIPs = " + p.address]
    + (if p.keepalive != 0 then ["PersistentKeepalive = " + Decimal.Print(p.keepalive)] else [])
  }

  function AllPeerLines(peers: seq<Peer>): seq<string> {
    if peers == [] then []
    else AllPeerLines(peers[..|peers| - 1]) + (if peers[|peers| - 1].enabled then PeerLines(peers[|peers| - 1]) else [])
  }

  /** Disabled peers are left out. */
  function Render(network: Network, peers: seq<Peer>, privateKey: string): Result<string, ConfigError> {
    if X25519.ValidateKey(privateKey).Err? then Err(InvalidKey)
    else
      match IPv4.Parse(network.addressCidr)
      case None => Err(InvalidInterface)
      case Some(interface) =>
        var route := IPv4.Print(IPv4.Network(interface));
        Ok(Join(HeaderLines(network, route, privateKey) + AllPeerLines(peers), "\n") + "\n")
  }

  /** The lines a peer adds. */
  method AppendPeer(lines: seq<string>, peer: Peer) returns (r: seq<string>)
    ensures r == lines + PeerLines(peer)
  {
    r := lines + ["", "[Peer]", "# " + peer.name, "PublicKey = " + peer.publicKey, "AllowedIPs = " + peer.address];
    if peer.keepalive != 0 {
      r := r + ["PersistentKeepalive = " + Decimal.Print(peer.keepalive)];
    }
  }

  /** The renderer as written: a list of lines that grows peer by peer. */
  method RenderServerConfig(network: Network, peers: seq<Peer>, privateKey: string) returns (r: Result<string, ConfigError>)
    ensures r == Render(network, peers, privateKey)
  {
    hide X25519.ValidateKey, IPv4.Parse, IPv4.Print, IPv4.Network, PeerLines, HeaderLines;
    if X25519.ValidateKey(privateKey).Err? {
      return Err(InvalidKey);
    }
    var interface := IPv4.Parse(network.addressCidr);
    if interface.None? {
      return Err(InvalidInterface);
    }
    var lines := HeaderLines(network, IPv4.Print(IPv4.Network(interface.value)), privateKey);
    ghost var header := lines;
    var i := 0;
    while i < |peers|
      invariant 0 <= i <= |peers|
      invariant lines == header + AllPeerLines(peers[..i])
    {
      assert peers[..i + 1][..i] == peers[..i];
      if peers[i].enabled {
        lines := AppendPeer(lines, peers[i]);
      }
      i := i + 1;
    }
    assert peers[..i] == peers;
    r := Ok(Join(lines, "\n") + "\n");
  }

  // ---- reading

  datatype Entry = Entry(key: string, value: string)

  datatype Section = Section(name: string, entries: seq<Entry>)

  datatype PeerReading = PeerReading(publicKey: string, address: string, keepalive: nat)

  datatype Reading = Reading(privateKey: string, address: string, listenPort: nat, peers: seq<PeerReading>)

  /** Comments and blank lines are skipped, a bracketed line opens a section, key = value lines belong to the last section. */
  function AddLine(sections: seq<Section>, line: string): seq<Section> {
    var s := Strip(Before(line, '#'));
    if s == "" then sections
    else if s[0] == '[' then sections + [Section(s, [])]
    else if '=' in s && sections != [] then AddEntry(sections, Entry(Strip(Before(s, '=')), Strip(After(s, '='))))
    else sections
  }

  function AddEntry(sections: seq<Section>, e: Entry): (r: seq<Section>)
    requires sections != []
    ensures |r| == |sections|
  {
    var last := sections[|sections| - 1];
    sections[..|sections| - 1] + [last.(entries := last.entries + [e])]
  }

  function ReadSections(lines: seq<string>, sections: seq<Section>): seq<Section>
    decreases |lines|
  {
    if lines == [] then sections else ReadSections(lines[1..], AddLine(sections, lines[0]))
  }

  /** A later entry overrides an earlier one with the same key. */
  function Lookup(entries: seq<Entry>, key: string): Option<string> {
    if entries == [] then None
    else if entries[|entries| - 1].key == key then Some(entries[|entries| - 1].value)
    else Lookup(entries[..|entries| - 1], key)
  }

  function ReadPeer(s: Section): Option<PeerReading> {
    var publicKey, address := Lookup(s.entries, "PublicKey"), Lookup(s.entries, "AllowedIPs");
    var keepalive := if Lookup(s.entries, "PersistentKeepalive").Some?
                     then Decimal.Parse(Lookup(s.entries, "PersistentKeepalive").value) else Some(0);
    if s.name != "[Peer]" || publicKey.None? || address.None? || keepalive.None? then None
    else Some(PeerReading(publicKey.value, address.value, keepalive.value))
  }

  function ReadPeers(sections: seq<Section>): Option<seq<PeerReading>> {
    if sections == [] then Some([])
    else
      var init, last := ReadPeers(sections[..|sections| - 1]), ReadPeer(sections[|sections| - 1]);
      if init.None? || last.None? then None else Some(init.value + [last.value])
  }

  function ReadInterface(s: Section, peers: seq<PeerReading>): Option<Reading> {
    var privateKey, address := Lookup(s.entries, "PrivateKey"), Lookup(s.entries, "Address");
    var port := Lookup(s.entries, "ListenPort");
    if s.name != "[Interface]" || privateKey.None? || address.None? || port.None? || Decimal.Parse(port.value).None? then None
    else Some(Reading(privateKey.value, address.value, Decimal.Parse(port.value).value, peers))
  }

  function Read(text: string): Option<Reading> {
    var sections := ReadSections(Lines(text), []);
    if sections == [] then None
    else
      match ReadPeers(sections[1..])
      case None => None
      case Some(peers) => ReadInterface(sections[0], peers)
  }

  // ---- lines as entries

  /** Values that the line format carries unchanged. */
  ghost predicate Clean(value: string) {
    value != "" && Stripped(value) && '\n' !in value && '#' !in value
  }

  ghost predicate CleanKey(key: string) {
    Clean(key) && '=' !in key && key[0] != '['
  }

  lemma StripOfEntry(key: string, w: string)
    requires CleanKey(key)
    ensures Strip(key + " = " + w) == (key + " ") + ['='] + StripRight(" " + w)
    ensures Strip(StripRight(" " + w)) == Strip(w)
  {
    var head, s := key + " =", key + " = " + w;
    assert s == head + (" " + w);
    assert StripLeft(s) == s;
    StripRightAfter(head, " " + w);
    StripAfterStripRight(" " + w);
    assert (" " + w)[1..] == w;
  }

  lemma LineOfPair(sections: seq<Section>, line: string, s: string)
    requires sections != [] && s == Strip(Before(line, '#'))
    requires s != "" && s[0] != '[' && '=' in s
    ensures AddLine(sections, line) == AddEntry(sections, Entry(Strip(Before(s, '=')), Strip(After(s, '='))))
  {
  }

  /** Whatever stands after the equals sign, the line is an entry of its key. */
  lemma LineIsEntry(sections: seq<Section>, key: string, v: string)
    requires CleanKey(key) && sections != []
    ensures AddLine(sections, key + " = " + v) == AddEntry(sections, Entry(key, Strip(Before(v, '#'))))
  {
    hide AddLine, AddEntry, Strip;
    var w := Before(v, '#');
    var s := (key + " ") + ['='] + StripRight(" " + w);
    BeforeConcat(key + " = ", v, '#');
    StripOfEntry(key, w);
    assert s[0] == key[0] && s[|key| + 1] == '=';
    LineOfPair(sections, key + " = " + v, s);
    BeforeAfterOf(key + " ", '=', StripRight(" " + w));
    StripTrailingSpace(key);
    assert Strip(Before(s, '=')) == key && Strip(After(s, '=')) == Strip(w);
    var e := Entry(Strip(Before(s, '=')), Strip(After(s, '=')));
    assert e == Entry(key, Strip(w));
    assert AddLine(sections, key + " = " + v) == AddEntry(sections, e);
    assert AddLine(sections, key + " = " + v) == AddEntry(sections, Entry(key, Strip(w)));
  }

  lemma StripTrailingSpace(key: string)
    requires key != "" && Stripped(key)
    ensures Strip(key + " ") == key
  {
    var s := key + " ";
    assert StripLeft(s) == s && s[..|s| - 1] == key && IsSpace(' ');
    assert StripRight(s) == StripRight(key);
  }

  lemma {:induction false} BeforeConcat(a: string, b: string, c: char)
    requires c !in a
    ensures Before(a + b, c) == a + Before(b, c)
  {
    if a == "" {
      assert a + b == b;
    } else {
      BeforeConcat(a[1..], b, c);
      assert (a + b)[1..] == a[1..] + b;
      assert [a[0]] + (a[1..] + Before(b, c)) == a + Before(b, c);
    }
  }

  lemma CleanValue(v: string)
    requires Clean(v)
    ensures Strip(Before(v, '#')) == v
  {
    BeforeWithout(v, '#');
    StripStripped(v);
  }

  lemma {:induction false} SectionsConcat(a: seq<string>, b: seq<string>, sections: seq<Section>)
    ensures ReadSections(a + b, sections) == ReadSections(b, ReadSections(a, sections))
    decreases |a|
  {
    hide AddLine;
    if a == [] {
      assert a + b == b;
    } else {
      SectionsConcat(a[1..], b, AddLine(sections, a[0]));
      assert (a + b)[1..] == a[1..] + b;
    }
  }

  // ---- sections of the rendered text

  function HeaderSection(network: Network, route: string, privateKey: string): Section {
    Section("[Interface]",
            InterfaceEntries(network, privateKey)
            + [Entry("PostUp", Strip(Before(PostUp(route), '#')))] + [Entry("PostDown", Strip(Before(PostDown(route), '#')))])
  }

  function PeerSection(p: Peer): Section {
    Section("[Peer]",
            [Entry("PublicKey", p.publicKey), Entry("AllowedIPs", p.address)]
            + (if p.keepalive != 0 then [Entry("PersistentKeepalive", Decimal.Print(p.keepalive))] else []))
  }

  lemma NumeralIsClean(n: nat)
    ensures Clean(Decimal.Print(n))
  {
    var s := Decimal.Print(n);
    assert Decimal.IsDigit(s[0]) && Decimal.IsDigit(s[|s| - 1]);
  }

  /** Adding a clean entry to the section under construction. */
  lemma AddToLast(done: seq<Section>, last: Section, key: string, v: string)
    requires CleanKey(key) && Clean(v)
    ensures AddLine(done + [last], key + " = " + v) == done + [last.(entries := last.entries + [Entry(key, v)])]
  {
    LineIsEntry(done + [last], key, v);
    CleanValue(v);
    assert (done + [last])[..|done|] == done;
  }

  ghost predicate Letters(key: string) {
    key != "" && forall i :: 0 <= i < |key| ==> 'A' <= key[i] <= 'Z' || 'a' <= key[i] <= 'z'
  }

  lemma LettersAreClean(key: string)
    requires Letters(key)
    ensures CleanKey(key)
  {
  }

  lemma InterfaceKeys()
    ensures Letters("PrivateKey") && Letters("Address") && Letters("ListenPort") && Letters("PostUp") && Letters("PostDown")
  {
  }

  lemma PeerKeys()
    ensures Letters("PublicKey") && Letters("AllowedIPs") && Letters("PersistentKeepalive")
  {
  }

  lemma CommentLine(sections: seq<Section>, name: string)
    ensures AddLine(sections, "# " + name) == sections && AddLine(sections, "") == sections
  {
    assert Before("# " + name, '#') == "" && Before("", '#') == "";
  }

  lemma HeadingLine(sections: seq<Section>, heading: string)
    requires heading == "[Peer]" || heading == "[Interface]"
    ensures AddLine(sections, heading) == sections + [Section(heading, [])]
  {
    BeforeWithout(heading, '#');
    StripStripped(heading);
  }

  lemma OneMoreLine(line: string, rest: seq<string>, sections: seq<Section>)
    ensures ReadSections([line] + rest, sections) == ReadSections(rest, AddLine(sections, line))
  {
    assert ([line] + rest)[1..] == rest;
  }

  lemma EntryLine(done: seq<Section>, last: Section, key: string, v: string, rest: seq<string>)
    requires Letters(key) && Clean(v)
    ensures ReadSections([key + " = " + v] + rest, done + [last])
         == ReadSections(rest, done + [last.(entries := last.entries + [Entry(key, v)])])
  {
    LettersAreClean(key);
    AddToLast(done, last, key, v);
    OneMoreLine(key + " = " + v, rest, done + [last]);
  }

  lemma PeerHeading(comment: string, rest: seq<string>, done: seq<Section>)
    ensures ReadSections(["", "[Peer]", "# " + comment] + rest, done) == ReadSections(rest, done + [Section("[Peer]", [])])
  {
    var line := "# " + comment;
    var r1, r2 := ["[Peer]"] + ([line] + rest), [line] + rest;
    assert ["", "[Peer]", line] + rest == [""] + r1;
    hide AddLine;
    OneMoreLine("", r1, done);
    CommentLine(done, comment);
    OneMoreLine("[Peer]", r2, done);
    HeadingLine(done, "[Peer]");
    OneMoreLine(line, rest, done + [Section("[Peer]", [])]);
    CommentLine(done + [Section("[Peer]", [])], comment);
  }

  /** The fields of a peer complete its section. */
  lemma FieldsRead(p: Peer, done: seq<Section>)
    requires Clean(p.publicKey) && Clean(p.address)
    ensures ReadSections(FieldLines(p), done + [Section("[Peer]", [])]) == done + [PeerSection(p)]
  {
    hide AddLine, Clean;
    var k := if p.keepalive != 0 then ["PersistentKeepalive = " + Decimal.Print(p.keepalive)] else [];
    var a := ["AllowedIPs = " + p.address] + k;
    var e1, e2 := Entry("PublicKey", p.publicKey), Entry("AllowedIPs", p.address);
    assert FieldLines(p) == ["PublicKey = " + p.publicKey] + a;
    PeerKeys();
    NextEntry("PublicKey = " + p.publicKey, done, "[Peer]", [], "PublicKey", p.publicKey, a);
    assert [] + [e1] == [e1];
    NextEntry("AllowedIPs = " + p.address, done, "[Peer]", [e1], "AllowedIPs", p.address, k);
    assert [e1] + [e2] == [e1, e2];
    if p.keepalive != 0 {
      NumeralIsClean(p.keepalive);
      NextEntry("PersistentKeepalive = " + Decimal.Print(p.keepalive), done, "[Peer]", [e1, e2],
                "PersistentKeepalive", Decimal.Print(p.keepalive), []);
      assert k + [] == k;
    } else {
      assert k == [];
      assert ReadSections(k, done + [Section("[Peer]", [e1, e2])]) == done + [Section("[Peer]", [e1, e2])];
      assert PeerSection(p).entries == [e1, e2];
    }
  }

  lemma NextEntry(line: string, done: seq<Section>, name: string, entries: seq<Entry>, key: string, v: string, rest: seq<string>)
    requires Letters(key) && Clean(v) && line == key + " = " + v
    ensures ReadSections([line] + rest, done + [Section(name, entries)])
         == ReadSections(rest, done + [Section(name, entries + [Entry(key, v)])])
  {
    EntryLine(done, Section(name, entries), key, v, rest);
    assert Section(name, entries).(entries := entries + [Entry(key, v)]) == Section(name, entries + [Entry(key, v)]);
  }

  function PeerSections(peers: seq<Peer>): seq<Section> {
    if peers == [] then []
    else PeerSections(peers[..|peers| - 1]) + (if peers[|peers| - 1].enabled then [PeerSection(peers[|peers| - 1])] else [])
  }

  ghost predicate CleanPeers(peers: seq<Peer>) {
    forall i :: 0 <= i < |peers| ==> Clean(peers[i].publicKey) && Clean(peers[i].address)
  }

  lemma FirewallLine(line: string, entries: seq<Entry>, key: string, v: string, rest: seq<string>)
    requires Letters(key) && line == key + " = " + v
    ensures ReadSections([line] + rest, [Section("[Interface]", entries)])
         == ReadSections(rest, [Section("[Interface]", entries + [Entry(key, Strip(Before(v, '#')))])])
  {
    var last := Section("[Interface]", entries);
    var next := Section("[Interface]", entries + [Entry(key, Strip(Before(v, '#')))]);
    LettersAreClean(key);
    LineIsEntry([last], key, v);
    assert AddEntry([last], Entry(key, Strip(Before(v, '#')))) == [next];
    OneMoreLine(key + " = " + v, rest, [last]);
  }

  lemma InterfaceEntry(line: string, entries: seq<Entry>, key: string, v: string, rest: seq<string>)
    requires Letters(key) && Clean(v) && line == key + " = " + v
    ensures ReadSections([line] + rest, [Section("[Interface]", entries)])
         == ReadSections(rest, [Section("[Interface]", entries + [Entry(key, v)])])
  {
    CleanValue(v);
    FirewallLine(line, entries, key, v, rest);
  }

  function InterfaceEntries(network: Network, privateKey: string): seq<Entry> {
    [Entry("PrivateKey", privateKey), Entry("Address", network.addressCidr), Entry("ListenPort", Decimal.Print(network.listenPort))]
  }

  lemma InterfaceLinesRead(network: Network, privateKey: string, rest: seq<string>)
    requires Clean(privateKey) && Clean(network.addressCidr)
    ensures ReadSections(["[Interface]", "PrivateKey = " + privateKey, "Address = " + network.addressCidr,
                          "ListenPort = " + Decimal.Print(network.listenPort)] + rest, [])
         == ReadSections(rest, [Section("[Interface]", InterfaceEntries(network, privateKey))])
  {
    hide AddLine, Clean;
    var port := Decimal.Print(network.listenPort);
    var l3 := ["ListenPort = " + port] + rest;
    var l2 := ["Address = " + network.addressCidr] + l3;
    var l1 := ["PrivateKey = " + privateKey] + l2;
    assert ["[Interface]", "PrivateKey = " + privateKey, "Address = " + network.addressCidr, "ListenPort = " + port] + rest
        == ["[Interface]"] + l1;
    OneMoreLine("[Interface]", l1, []);
    HeadingLine([], "[Interface]");
    InterfaceKeys();
    NumeralIsClean(network.listenPort);
    var e1, e2, e3 := Entry("PrivateKey", privateKey), Entry("Address", network.addressCidr), Entry("ListenPort", port);
    assert [] + [Section("[Interface]", [])] == [Section("[Interface]", [])];
    InterfaceEntry("PrivateKey = " + privateKey, [], "PrivateKey", privateKey, l2);
    assert [] + [e1] == [e1];
    InterfaceEntry("Address = " + network.addressCidr, [e1], "Address", network.addressCidr, l3);
    assert [e1] + [e2] == [e1, e2];
    InterfaceEntry("ListenPort = " + port, [e1, e2], "ListenPort", port, rest);
    assert [e1, e2] + [e3] == [e1, e2, e3];
  }

  lemma HeaderSectionRead(network: Network, route: string, privateKey: string)
    requires Clean(privateKey) && Clean(network.addressCidr)
    ensures ReadSections(HeaderLines(network, route, privateKey), []) == [HeaderSection(network, route, privateKey)]
  {
    hide AddLine, Clean, PostUp, PostDown, Strip;
    var up, down := PostUp(route), PostDown(route);
    var l5 := ["PostDown = " + down];
    var l4 := ["PostUp = " + up] + l5;
    var entries := InterfaceEntries(network, privateKey);
    var e4, e5 := Entry("PostUp", Strip(Before(up, '#'))), Entry("PostDown", Strip(Before(down, '#')));
    assert HeaderLines(network, route, privateKey)
        == ["[Interface]", "PrivateKey = " + privateKey, "Address = " + network.addressCidr,
            "ListenPort = " + Decimal.Print(network.listenPort)] + l4;
    InterfaceLinesRead(network, privateKey, l4);
    hide InterfaceEntries;
    InterfaceKeys();
    FirewallLine("PostUp = " + up, entries, "PostUp", up, l5);
    assert l5 + [] == l5;
    FirewallLine("PostDown = " + down, entries + [e4], "PostDown", down, []);
    assert HeaderSection(network, route, privateKey) == Section("[Interface]", entries + [e4] + [e5]);
  }

  // ---- the reading of a rendered configuration

  lemma ReadPeerSection(p: Peer)
    ensures ReadPeer(PeerSection(p)) == Some(PeerReading(p.publicKey, p.address, p.keepalive))
  {
    var s := PeerSection(p);
    var e1, e2 := Entry("PublicKey", p.publicKey), Entry("AllowedIPs", p.address);
    Decimal.ParsePrint(p.keepalive);
    assert "PublicKey"[0] != "AllowedIPs"[0] && "PersistentKeepalive"[1] != "PublicKey"[1] && "PersistentKeepalive"[0] != "AllowedIPs"[0];
    LookupLast([e1], e2);
    LookupLast([], e1);
    assert [] + [e1] == [e1] && [e1] + [e2] == [e1, e2];
    if p.keepalive != 0 {
      LookupLast([e1, e2], Entry("PersistentKeepalive", Decimal.Print(p.keepalive)));
    } else {
      assert s.entries == [e1, e2];
    }
  }

  lemma LookupLast(entries: seq<Entry>, e: Entry)
    ensures forall key :: Lookup(entries + [e], key) == if e.key == key then Some(e.value) else Lookup(entries, key)
  {
    assert (entries + [e])[..|entries|] == entries;
  }

  function PeerReadings(peers: seq<Peer>): seq<PeerReading> {
    if peers == [] then []
    else
      var p := peers[|peers| - 1];
      PeerReadings(peers[..|peers| - 1]) + (if p.enabled then [PeerReading(p.publicKey, p.address, p.keepalive)] else [])
  }

  lemma {:induction false} ReadPeerSections(peers: seq<Peer>)
    ensures ReadPeers(PeerSections(peers)) == Some(PeerReadings(peers))
  {
    if peers == [] {
    } else {
      var init, p := peers[..|peers| - 1], peers[|peers| - 1];
      ReadPeerSections(init);
      ReadPeerSection(p);
      hide PeerSection, ReadPeer;
      var sections := PeerSections(init);
      if p.enabled {
        assert (sections + [PeerSection(p)])[..|sections|] == sections;
      } else {
        assert sections + [] == sections;
        assert PeerReadings(init) + [] == PeerReadings(init);
      }
    }
  }

  lemma ReadHeaderSection(network: Network, route: string, privateKey: string, peers: seq<PeerReading>)
    ensures ReadInterface(HeaderSection(network, route, privateKey), peers)
         == Some(Reading(privateKey, network.addressCidr, network.listenPort, peers))
  {
    hide PostUp, PostDown, Strip;
    var e1, e2 := Entry("PrivateKey", privateKey), Entry("Address", network.addressCidr);
    var e3 := Entry("ListenPort", Decimal.Print(network.listenPort));
    var e4, e5 := Entry("PostUp", Strip(Before(PostUp(route), '#'))), Entry("PostDown", Strip(Before(PostDown(route), '#')));
    Decimal.ParsePrint(network.listenPort);
    LookupLast([], e1);
    LookupLast([e1], e2);
    LookupLast([e1, e2], e3);
    assert [] + [e1] == [e1] && [e1] + [e2] == [e1, e2] && [e1, e2] + [e3] == [e1, e2, e3];
    var entries := InterfaceEntries(network, privateKey);
    assert entries == [e1, e2, e3];
    assert "PrivateKey"[1] == 'r' && "Address"[0] == 'A' && "ListenPort"[0] == 'L';
    assert Lookup(entries, "PrivateKey") == Some(privateKey) && Lookup(entries, "Address") == Some(network.addressCidr);
    assert Lookup(entries, "ListenPort") == Some(Decimal.Print(network.listenPort));
    FirewallEntriesAreOthers(entries, e4, e5);
    assert HeaderSection(network, route, privateKey).entries == entries + [e4] + [e5];
  }

  lemma FirewallEntriesAreOthers(entries: seq<Entry>, up: Entry, down: Entry)
    requires up.key == "PostUp" && down.key == "PostDown"
    ensures forall key :: key == "PrivateKey" || key == "Address" || key == "ListenPort" ==>
              Lookup(entries + [up] + [down], key) == Lookup(entries, key)
  {
    LookupLast(entries, up);
    LookupLast(entries + [up], down);
    assert "PrivateKey"[1] == 'r' && "PostUp"[1] == 'o' && "PostDown"[1] == 'o';
    assert "Address"[0] == 'A' && "ListenPort"[0] == 'L' && "PostUp"[0] == "PostDown"[0] == 'P';
  }

  lemma RulesAreLines(route: string)
    requires '\n' !in route
    ensures '\n' !in PostUp(route) && '\n' !in PostDown(route)
  {
    RuleTextIsLine();
  }

  lemma RuleTextIsLine()
    ensures '\n' !in "iptables " && '\n' !in "FORWARD -i %i -j ACCEPT; " && '\n' !in "FORWARD -o %i -m conntrack "
    ensures '\n' !in "--ctstate RELATED,ESTABLISHED -j ACCEPT; " && '\n' !in "iptables -t nat "
    ensures '\n' !in "POSTROUTING -s " && '\n' !in " -j MASQUERADE"
  {
    LongRuleTextIsLine();
  }

  lemma LongRuleTextIsLine()
    ensures '\n' !in "FORWARD -o %i -m conntrack " && '\n' !in "--ctstate RELATED,ESTABLISHED -j ACCEPT; "
  {
  }

  lemma HeaderLinesAreLines(network: Network, route: string, privateKey: string)
    requires Clean(privateKey) && Clean(network.addressCidr) && '\n' !in route
    ensures LineFree(HeaderLines(network, route, privateKey))
  {
    RulesAreLines(route);
    NumeralIsClean(network.listenPort);
    hide PostUp, PostDown;
  }

  /** Accepted keys consist of base64 characters, so a line carries them unchanged. */
  lemma ValidKeyIsClean(key: string)
    requires X25519.ValidateKey(key).Ok?
    ensures Clean(key)
  {
    forall i | 0 <= i < |key| ensures !IsSpace(key[i]) && key[i] != '#' {
      Base64.StrictCharacters(key, Base64.START, i);
    }
    assert IsSpace('\n');
  }
}
