/** What a rendered server configuration reads as, for peers with any names, line breaks included. */
module PeerNames {
  import opened Wrappers
  import opened Text
  import opened Rows
  import opened ServerConfig
  import IPv4
  import X25519

  /** Lines that add nothing: blank, a comment, or without an equals sign and not a heading. */
  predicate Inert(line: string) {
    var s := Strip(Before(line, '#'));
    s == "" || (s[0] != '[' && '=' !in s)
  }

  /** The lines of a name after its first, which stand outside the comment. */
  function ExtraLines(name: string): seq<string> {
    Split(name, '\n')[1..]
  }

  predicate QuietName(name: string) {
    forall i :: 0 <= i < |ExtraLines(name)| ==> Inert(ExtraLines(name)[i])
  }

  predicate QuietNames(peers: seq<Peer>) {
    forall i :: 0 <= i < |peers| && peers[i].enabled ==> QuietName(peers[i].name)
  }

  /** Headings and entries in all. */
  function Weight(sections: seq<Section>): nat {
    if sections == [] then 0
    else Weight(sections[..|sections| - 1]) + 1 + |sections[|sections| - 1].entries|
  }

  function Noise(lines: seq<string>): nat {
    if lines == [] then 0 else (if Inert(lines[0]) then 0 else 1) + Noise(lines[1..])
  }

  lemma WeightSnoc(sections: seq<Section>, s: Section)
    ensures Weight(sections + [s]) == Weight(sections) + 1 + |s.entries|
  {
    assert (sections + [s])[..|sections|] == sections;
  }

  lemma {:induction false} WeightConcat(a: seq<Section>, b: seq<Section>)
    ensures Weight(a + b) == Weight(a) + Weight(b)
  {
    if b == [] {
      assert a + b == a;
    } else {
      var init, last := b[..|b| - 1], b[|b| - 1];
      WeightConcat(a, init);
      WeightSnoc(a + init, last);
      assert b == init + [last] && a + b == (a + init) + [last];
    }
  }

  lemma AddedLine(sections: seq<Section>, line: string)
    requires sections != []
    ensures var next := AddLine(sections, line);
            && next != []
            && Weight(next) == Weight(sections) + (if Inert(line) then 0 else 1)
            && (Inert(line) ==> next == sections)
  {
    var s := Strip(Before(line, '#'));
    var init, last := sections[..|sections| - 1], sections[|sections| - 1];
    hide Strip, AddLine;
    AddLineCases(sections, line);
    if s != "" && s[0] == '[' {
      WeightSnoc(sections, Section(s, []));
    } else if s != "" && '=' in s {
      var e := Entry(Strip(Before(s, '=')), Strip(After(s, '=')));
      WeightSnoc(init, last.(entries := last.entries + [e]));
    }
  }

  lemma AddLineCases(sections: seq<Section>, line: string)
    requires sections != []
    ensures var s, next := Strip(Before(line, '#')), AddLine(sections, line);
            next == if s != "" && s[0] == '[' then sections + [Section(s, [])]
                    else if s != "" && '=' in s then AddEntry(sections, Entry(Strip(Before(s, '=')), Strip(After(s, '='))))
                    else sections
  {
    hide Strip;
  }

  lemma {:induction false} ReadWeight(lines: seq<string>, sections: seq<Section>)
    requires sections != []
    ensures ReadSections(lines, sections) != []
    ensures Weight(ReadSections(lines, sections)) == Weight(sections) + Noise(lines)
    ensures Noise(lines) == 0 ==> ReadSections(lines, sections) == sections
    decreases |lines|
  {
    if lines == [] {
    } else {
      hide AddLine, Inert;
      AddedLine(sections, lines[0]);
      ReadWeight(lines[1..], AddLine(sections, lines[0]));
    }
  }

  lemma {:induction false} NoiseConcat(a: seq<string>, b: seq<string>)
    ensures Noise(a + b) == Noise(a) + Noise(b)
  {
    hide Inert;
    if a == [] {
      assert a + b == b;
    } else {
      NoiseConcat(a[1..], b);
      assert (a + b)[1..] == a[1..] + b;
    }
  }

  lemma {:induction false} NoNoise(lines: seq<string>)
    ensures Noise(lines) == 0 <==> forall i :: 0 <= i < |lines| ==> Inert(lines[i])
  {
    hide Inert;
    if lines == [] {
    } else {
      NoNoise(lines[1..]);
      assert forall i :: 0 < i < |lines| ==> lines[i] == lines[1..][i - 1];
    }
  }

  lemma FieldsAreLines(p: Peer)
    requires Clean(p.publicKey) && Clean(p.address)
    ensures LineFree(FieldLines(p))
  {
    NumeralIsClean(p.keepalive);
  }

  /** The first line of a name stays in the comment, the others become lines of their own. */
  lemma BrokenPeer(p: Peer)
    requires Clean(p.publicKey) && Clean(p.address)
    ensures Broken(PeerLines(p)) == ["", "[Peer]", "# " + Split(p.name, '\n')[0]] + (ExtraLines(p.name) + FieldLines(p))
  {
    var comment, first := "# " + p.name, ["# " + Split(p.name, '\n')[0]];
    FieldsAreLines(p);
    BrokenUnbroken(FieldLines(p));
    SplitAfter("# ", p.name, '\n');
    SplitWithout("[Peer]", '\n');
    hide FieldLines, Clean, ExtraLines;
    BrokenCons(comment, FieldLines(p));
    BrokenCons("[Peer]", [comment] + FieldLines(p));
    BrokenCons("", ["[Peer]"] + ([comment] + FieldLines(p)));
    assert PeerLines(p) == [""] + (["[Peer]"] + ([comment] + FieldLines(p)));
    Associate(first, ExtraLines(p.name), FieldLines(p));
    assert Split(comment, '\n') == first + Split(p.name, '\n')[1..];
    RegroupPeer(first[0], ExtraLines(p.name) + FieldLines(p));
  }

  lemma RegroupPeer(comment: string, rest: seq<string>)
    ensures [""] + (["[Peer]"] + ([comment] + rest)) == ["", "[Peer]", comment] + rest
  {
  }

  /** What a peer's lines add to any reading: its section, and one heading or entry for each noisy line of its name. */
  lemma PeerReads(p: Peer, done: seq<Section>)
    requires Clean(p.publicKey) && Clean(p.address)
    ensures var r := ReadSections(Broken(PeerLines(p)), done);
            && Weight(r) == Weight(done) + Weight([PeerSection(p)]) + Noise(ExtraLines(p.name))
            && (Noise(ExtraLines(p.name)) == 0 ==> r == done + [PeerSection(p)])
  {
    var extra, fields := ExtraLines(p.name), FieldLines(p);
    var heading := [Section("[Peer]", [])];
    BrokenPeer(p);
    hide PeerLines, FieldLines, ExtraLines, PeerSection, Clean;
    PeerHeading(Split(p.name, '\n')[0], extra + fields, done);
    SectionsConcat(extra, fields, done + heading);
    FieldsRead(p, done);
    ReadWeight(fields, done + heading);
    ReadWeight(extra, done + heading);
    ReadWeight(extra + fields, done + heading);
    NoiseConcat(extra, fields);
    WeightConcat(done, [PeerSection(p)]);
  }

  /** A peer's lines read as its one section if and only if the later lines of its name add nothing. */
  lemma PeerReadsIff(p: Peer, done: seq<Section>)
    requires Clean(p.publicKey) && Clean(p.address)
    ensures ReadSections(Broken(PeerLines(p)), done) == done + [PeerSection(p)] <==> QuietName(p.name)
  {
    PeerReads(p, done);
    WeightConcat(done, [PeerSection(p)]);
    NoNoise(ExtraLines(p.name));
  }

  function NameNoise(peers: seq<Peer>): nat {
    if peers == [] then 0
    else
      var p := peers[|peers| - 1];
      NameNoise(peers[..|peers| - 1]) + (if p.enabled then Noise(ExtraLines(p.name)) else 0)
  }

  lemma {:induction false} NamesAreQuiet(peers: seq<Peer>)
    ensures NameNoise(peers) == 0 <==> QuietNames(peers)
  {
    if peers == [] {
    } else {
      var init, p := peers[..|peers| - 1], peers[|peers| - 1];
      NamesAreQuiet(init);
      NoNoise(ExtraLines(p.name));
      hide ExtraLines;
      assert peers == init + [p];
    }
  }

  lemma {:induction false} AllPeersRead(peers: seq<Peer>, done: seq<Section>)
    requires CleanPeers(peers)
    ensures var r := ReadSections(Broken(AllPeerLines(peers)), done);
            && Weight(r) == Weight(done) + Weight(PeerSections(peers)) + NameNoise(peers)
            && (NameNoise(peers) == 0 ==> r == done + PeerSections(peers))
  {
    if peers == [] {
      assert done + [] == done;
    } else {
      var init, p := peers[..|peers| - 1], peers[|peers| - 1];
      var r := ReadSections(Broken(AllPeerLines(init)), done);
      hide PeerLines, PeerSection, Clean, ExtraLines;
      AllPeersRead(init, done);
      if p.enabled {
        BrokenConcat(AllPeerLines(init), PeerLines(p));
        SectionsConcat(Broken(AllPeerLines(init)), Broken(PeerLines(p)), done);
        PeerReads(p, r);
        WeightConcat(PeerSections(init), [PeerSection(p)]);
        Associate(done, PeerSections(init), [PeerSection(p)]);
      } else {
        assert AllPeerLines(init) + [] == AllPeerLines(init) && PeerSections(init) + [] == PeerSections(init);
      }
    }
  }

  // ---- what the rendered text reads as

  function RouteOf(network: Network): string
    requires IPv4.Parse(network.addressCidr).Some?
  {
    IPv4.Print(IPv4.Network(IPv4.Parse(network.addressCidr).value))
  }

  /** The sections that stand for the network and its enabled peers. */
  function Sections(network: Network, peers: seq<Peer>, privateKey: string): seq<Section>
    requires IPv4.Parse(network.addressCidr).Some?
  {
    [HeaderSection(network, RouteOf(network), privateKey)] + PeerSections(peers)
  }

  lemma RenderedLines(network: Network, peers: seq<Peer>, privateKey: string)
    requires Render(network, peers, privateKey).Ok? && Clean(network.addressCidr)
    ensures var header := HeaderLines(network, RouteOf(network), privateKey);
            Lines(Render(network, peers, privateKey).value) == header + Broken(AllPeerLines(peers))
  {
    var route := RouteOf(network);
    IPv4.PrintedText(IPv4.Network(IPv4.Parse(network.addressCidr).value));
    ValidKeyIsClean(privateKey);
    HeaderLinesAreLines(network, route, privateKey);
    var header, body := HeaderLines(network, route, privateKey), AllPeerLines(peers);
    assert header != [];
    hide HeaderLines, Clean, IPv4.Parse, IPv4.Print, X25519.ValidateKey;
    LinesOfJoined(header + body);
    BrokenConcat(header, body);
    BrokenUnbroken(header);
  }

  lemma RenderedSections(network: Network, peers: seq<Peer>, privateKey: string)
    requires Render(network, peers, privateKey).Ok? && Clean(network.addressCidr) && CleanPeers(peers)
    ensures var r := ReadSections(Lines(Render(network, peers, privateKey).value), []);
            && Weight(r) == Weight(Sections(network, peers, privateKey)) + NameNoise(peers)
            && (NameNoise(peers) == 0 ==> r == Sections(network, peers, privateKey))
  {
    var route := RouteOf(network);
    var header, body := HeaderLines(network, route, privateKey), AllPeerLines(peers);
    var first := [HeaderSection(network, route, privateKey)];
    ValidKeyIsClean(privateKey);
    RenderedLines(network, peers, privateKey);
    hide HeaderLines, HeaderSection, Clean, IPv4.Parse, X25519.ValidateKey, Render, RouteOf;
    HeaderSectionRead(network, route, privateKey);
    SectionsConcat(header, Broken(body), []);
    AllPeersRead(peers, first);
    WeightConcat(first, PeerSections(peers));
  }

  /**
   * A rendered configuration reads as exactly the section of its interface and one section for each enabled peer
   * if and only if the later lines of the enabled peers' names add nothing.
   */
  lemma RenderedSectionsIff(network: Network, peers: seq<Peer>, privateKey: string)
    requires Render(network, peers, privateKey).Ok? && Clean(network.addressCidr) && CleanPeers(peers)
    ensures ReadSections(Lines(Render(network, peers, privateKey).value), []) == Sections(network, peers, privateKey)
            <==> QuietNames(peers)
  {
    hide Render, Sections, CleanPeers, Clean, IPv4.Parse;
    RenderedSections(network, peers, privateKey);
    NamesAreQuiet(peers);
  }

  /** Then the reading is the interface and exactly the enabled peers, in order. */
  lemma RenderedConfigReads(network: Network, peers: seq<Peer>, privateKey: string)
    requires Render(network, peers, privateKey).Ok? && Clean(network.addressCidr) && CleanPeers(peers) && QuietNames(peers)
    ensures Read(Render(network, peers, privateKey).value)
         == Some(Reading(privateKey, network.addressCidr, network.listenPort, PeerReadings(peers)))
  {
    var route := RouteOf(network);
    RenderedSectionsIff(network, peers, privateKey);
    hide Render, HeaderSection, CleanPeers, Clean, IPv4.Parse, RouteOf, QuietNames;
    var sections := [HeaderSection(network, route, privateKey)] + PeerSections(peers);
    assert sections[1..] == PeerSections(peers);
    ReadPeerSections(peers);
    ReadHeaderSection(network, route, privateKey, PeerReadings(peers));
  }

  // ---- a name that adds a peer

  /** A name that leaves its comment, completes the section with a key and an address, and opens another. */
  function TwoPeerName(first: string, publicKey: string, address: string, last: string): string {
    first + "\nPublicKey = " + publicKey + "\nAllowedIPs = " + address + "\n\n[Peer]\n# " + last
  }

  lemma NameParts(first: string, publicKey: string, address: string, last: string)
    ensures TwoPeerName(first, publicKey, address, last)
         == first + ['\n'] + (("PublicKey = " + publicKey) + ['\n'] + (("AllowedIPs = " + address) + ['\n']
                              + ("" + ['\n'] + ("[Peer]" + ['\n'] + ("# " + last)))))
  {
    assert "\nPublicKey = " == ['\n'] + "PublicKey = " && "\nAllowedIPs = " == ['\n'] + "AllowedIPs = ";
    assert "\n\n[Peer]\n# " == ['\n'] + (['\n'] + ("[Peer]" + (['\n'] + "# ")));
  }

  lemma TwoPeerNameLines(first: string, publicKey: string, address: string, last: string)
    requires '\n' !in first && '\n' !in last && Clean(publicKey) && Clean(address)
    ensures Split(TwoPeerName(first, publicKey, address, last), '\n')
         == [first] + (["PublicKey = " + publicKey] + (["AllowedIPs = " + address] + ([""] + (["[Peer]"] + ["# " + last]))))
  {
    var t5 := "# " + last;
    var t4 := "[Peer]" + ['\n'] + t5;
    var t3 := "" + ['\n'] + t4;
    var t2 := ("AllowedIPs = " + address) + ['\n'] + t3;
    var t1 := ("PublicKey = " + publicKey) + ['\n'] + t2;
    NoBreakInFields(publicKey, address);
    NameParts(first, publicKey, address, last);
    hide Clean, TwoPeerName;
    SplitAt(first, '\n', t1);
    SplitAt("PublicKey = " + publicKey, '\n', t2);
    SplitAt("AllowedIPs = " + address, '\n', t3);
    SplitAt("", '\n', t4);
    SplitAt("[Peer]", '\n', t5);
    SplitWithout(t5, '\n');
  }

  lemma NoBreakInFields(publicKey: string, address: string)
    requires Clean(publicKey) && Clean(address)
    ensures '\n' !in "PublicKey = " + publicKey && '\n' !in "AllowedIPs = " + address
  {
  }

  /** The peer that the text of such a name describes. */
  function NamedPeer(p: Peer, first: string, publicKey: string, address: string): Peer {
    Peer(p.networkId, first, publicKey, address, "", 0, true, None)
  }

  lemma NameBreaksIntoTwoPeers(p: Peer, first: string, publicKey: string, address: string, last: string)
    requires Clean(p.publicKey) && Clean(p.address) && Clean(publicKey) && Clean(address) && '\n' !in first && '\n' !in last
    requires p.name == TwoPeerName(first, publicKey, address, last)
    ensures Broken(PeerLines(p)) == PeerLines(NamedPeer(p, first, publicKey, address)) + PeerLines(p.(name := last))
  {
    var q, r := NamedPeer(p, first, publicKey, address), p.(name := last);
    var extra := ["PublicKey = " + publicKey, "AllowedIPs = " + address, "", "[Peer]", "# " + last];
    TwoPeerNameLines(first, publicKey, address, last);
    assert Split(p.name, '\n') == [first] + extra;
    assert ExtraLines(p.name) == extra;
    BrokenPeer(p);
    hide Clean, TwoPeerName, ExtraLines;
    var fields := FieldLines(p);
    assert FieldLines(r) == fields;
    assert PeerLines(q) == ["", "[Peer]", "# " + first, "PublicKey = " + publicKey, "AllowedIPs = " + address];
    hide FieldLines;
    RegroupTwoPeers("# " + first, "PublicKey = " + publicKey, "AllowedIPs = " + address, "# " + last, fields);
  }

  lemma RegroupTwoPeers(a: string, b: string, c: string, d: string, fields: seq<string>)
    ensures ["", "[Peer]", a] + ([b, c, "", "[Peer]", d] + fields) == ["", "[Peer]", a, b, c] + (["", "[Peer]", d] + fields)
  {
  }

  lemma SameLinesSameText(header: seq<string>, a: seq<string>, b: seq<string>)
    requires header != [] && Broken(a) == b
    ensures Join(header + a, "\n") + "\n" == Join(header + b, "\n") + "\n"
  {
    JoinIsTerminated(header + a);
    JoinIsTerminated(header + b);
    TerminatedConcat(header, a);
    TerminatedConcat(header, b);
    BrokenTerminated(a);
  }

  lemma OneOrTwoPeers(p: Peer, q: Peer)
    requires p.enabled && q.enabled
    ensures AllPeerLines([p]) == PeerLines(p) && AllPeerLines([q, p]) == PeerLines(q) + PeerLines(p)
    ensures PeerReadings([q, p]) == [PeerReading(q.publicKey, q.address, q.keepalive), PeerReading(p.publicKey, p.address, p.keepalive)]
  {
    hide PeerLines;
    assert AllPeerLines([]) == [] && PeerReadings([]) == [];
    hide AllPeerLines, PeerReadings;
    OneMorePeer([], p);
    OneMorePeer([], q);
    OneMorePeer([q], p);
    assert [] + [p] == [p] && [] + [q] == [q] && [q] + [p] == [q, p];
    assert [] + PeerLines(p) == PeerLines(p) && [] + PeerLines(q) == PeerLines(q);
  }

  lemma OneMorePeer(peers: seq<Peer>, p: Peer)
    requires p.enabled
    ensures AllPeerLines(peers + [p]) == AllPeerLines(peers) + PeerLines(p)
    ensures PeerReadings(peers + [p]) == PeerReadings(peers) + [PeerReading(p.publicKey, p.address, p.keepalive)]
  {
    hide PeerLines;
    assert (peers + [p])[..|peers|] == peers;
  }

  /**
   * Such a name makes the text of one peer the text of two, for any key and address: what is read is then a peer
   * without a row beside the stored one.
   */
  lemma NameAddsPeer(network: Network, p: Peer, privateKey: string, first: string, publicKey: string, address: string, last: string)
    requires p.enabled && Clean(p.publicKey) && Clean(p.address) && p.name == TwoPeerName(first, publicKey, address, last)
    requires Clean(publicKey) && Clean(address) && '\n' !in first && '\n' !in last
    requires Render(network, [p], privateKey).Ok? && Clean(network.addressCidr)
    ensures Render(network, [p], privateKey) == Render(network, [NamedPeer(p, first, publicKey, address), p.(name := last)], privateKey)
    ensures Read(Render(network, [p], privateKey).value)
         == Some(Reading(privateKey, network.addressCidr, network.listenPort,
                         [PeerReading(publicKey, address, 0), PeerReading(p.publicKey, p.address, p.keepalive)]))
  {
    hide Render, Clean, TwoPeerName, IPv4.Parse;
    NameTextIsTwoPeers(network, p, privateKey, first, publicKey, address, last);
    TwoPeersRead(network, NamedPeer(p, first, publicKey, address), p.(name := last), privateKey);
  }

  lemma TwoPeersRead(network: Network, q: Peer, r: Peer, privateKey: string)
    requires Render(network, [q, r], privateKey).Ok? && Clean(network.addressCidr)
    requires q.enabled && r.enabled && Clean(q.publicKey) && Clean(q.address) && Clean(r.publicKey) && Clean(r.address)
    requires '\n' !in q.name && '\n' !in r.name
    ensures Read(Render(network, [q, r], privateKey).value)
         == Some(Reading(privateKey, network.addressCidr, network.listenPort,
                         [PeerReading(q.publicKey, q.address, q.keepalive), PeerReading(r.publicKey, r.address, r.keepalive)]))
  {
    hide Render, Clean, IPv4.Parse;
    OneOrTwoPeers(r, q);
    OneLineNames(q, r);
    hide QuietNames;
    RenderedConfigReads(network, [q, r], privateKey);
  }

  lemma NameTextIsTwoPeers(network: Network, p: Peer, privateKey: string, first: string, publicKey: string, address: string, last: string)
    requires p.enabled && Clean(p.publicKey) && Clean(p.address) && p.name == TwoPeerName(first, publicKey, address, last)
    requires Clean(publicKey) && Clean(address) && '\n' !in first && '\n' !in last
    requires Render(network, [p], privateKey).Ok?
    ensures Render(network, [p], privateKey) == Render(network, [NamedPeer(p, first, publicKey, address), p.(name := last)], privateKey)
  {
    var q, r := NamedPeer(p, first, publicKey, address), p.(name := last);
    hide PeerLines, Clean, TwoPeerName, HeaderLines, X25519.ValidateKey, IPv4.Parse, IPv4.Print, IPv4.Network;
    NameBreaksIntoTwoPeers(p, first, publicKey, address, last);
    OneOrTwoPeers(p, q);
    OneOrTwoPeers(r, q);
    var header := HeaderLines(network, RouteOf(network), privateKey);
    HeaderIsNotEmpty(network, RouteOf(network), privateKey);
    SameLinesSameText(header, PeerLines(p), PeerLines(q) + PeerLines(r));
  }

  lemma HeaderIsNotEmpty(network: Network, route: string, privateKey: string)
    ensures HeaderLines(network, route, privateKey) != []
  {
  }

  lemma OneLineNames(q: Peer, r: Peer)
    requires '\n' !in q.name && '\n' !in r.name
    ensures QuietNames([q, r])
  {
    SplitWithout(q.name, '\n');
    SplitWithout(r.name, '\n');
  }
}
