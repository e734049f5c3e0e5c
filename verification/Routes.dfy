/** Client route lists and peer addresses. */
module Routes {
  import opened Wrappers
  import opened Text
  import IPv4

  const MAX_ROUTES := 32
  const COLUMN_WIDTH := 1024

  datatype RouteError = NoRoutes | TooManyRoutes | InvalidRoute | ForeignAddress

  // ---- route lists

  /** The stripped, non-blank parts. */
  function NonBlank(parts: seq<string>): (r: seq<string>)
    ensures |r| <= |parts|
  {
    if parts == [] then []
    else (if Strip(parts[0]) == "" then [] else [Strip(parts[0])]) + NonBlank(parts[1..])
  }

  function Routes(value: string): seq<string> {
    NonBlank(Split(value, ','))
  }

  predicate AllParse(routes: seq<string>) {
    forall i :: 0 <= i < |routes| ==> IPv4.Parse(routes[i]).Some?
  }

  function NetworkTexts(routes: seq<string>): (r: seq<string>)
    requires AllParse(routes)
    ensures |r| == |routes|
  {
    seq(|routes|, i requires 0 <= i < |routes| => IPv4.Print(IPv4.Network(IPv4.Parse(routes[i]).value)))
  }

  /** First occurrences only, in order, as dict.fromkeys keeps them. */
  function Deduplicated(texts: seq<string>): (r: seq<string>)
    ensures |r| <= |texts|
  {
    if texts == [] then []
    else
      var init, last := Deduplicated(texts[..|texts| - 1]), texts[|texts| - 1];
      if last in init then init else init + [last]
  }

  function NormalizeAllowedIps(value: string): Result<string, RouteError> {
    var routes := Routes(value);
    if routes == [] then Err(NoRoutes)
    else if |routes| > MAX_ROUTES then Err(TooManyRoutes)
    else if !AllParse(routes) then Err(InvalidRoute)
    else Ok(Join(Deduplicated(NetworkTexts(routes)), ", "))
  }

  // ---- deduplication

  ghost predicate Distinct(s: seq<string>) {
    forall i, j :: 0 <= i < j < |s| ==> s[i] != s[j]
  }

  lemma {:induction false} DeduplicatedElements(texts: seq<string>)
    ensures Distinct(Deduplicated(texts))
    ensures forall t :: t in Deduplicated(texts) <==> t in texts
  {
    if texts == [] {
    } else {
      var init := texts[..|texts| - 1];
      DeduplicatedElements(init);
      assert texts == init + [texts[|texts| - 1]];
    }
  }

  /** Deduplication commutes with taking prefixes, so each text sits where it first occurred. */
  lemma {:induction false} DeduplicatedOrder(texts: seq<string>, n: nat)
    requires n <= |texts|
    ensures Deduplicated(texts[..n]) <= Deduplicated(texts)
    decreases |texts|
  {
    if n < |texts| {
      var init := texts[..|texts| - 1];
      assert init[..n] == texts[..n];
      DeduplicatedOrder(init, n);
    } else {
      assert texts[..n] == texts;
    }
  }

  lemma {:induction false} DistinctUnchanged(texts: seq<string>)
    requires Distinct(texts)
    ensures Deduplicated(texts) == texts
  {
    if texts == [] {
    } else {
      var init := texts[..|texts| - 1];
      DistinctUnchanged(init);
      assert texts == init + [texts[|texts| - 1]];
    }
  }

  // ---- reading a joined list back

  /** Texts that splitting at commas and stripping leaves alone. */
  ghost predicate Listable(texts: seq<string>) {
    forall i :: 0 <= i < |texts| ==> texts[i] != "" && Stripped(texts[i]) && ',' !in texts[i]
  }

  lemma StripLeadingSpace(s: string)
    requires s != "" && Stripped(s)
    ensures Strip([' '] + s) == s
  {
    assert ([' '] + s)[1..] == s;
    assert StripLeft(s) == s;
    StripStripped(s);
  }

  lemma NonBlankCons(part: string, t: string, rest: seq<string>)
    requires Strip(part) == t && t != ""
    ensures NonBlank([part] + rest) == [t] + NonBlank(rest)
  {
    assert ([part] + rest)[1..] == rest;
  }

  lemma StripWithLead(t: string, lead: string)
    requires t != "" && Stripped(t) && ',' !in t && (lead == "" || lead == " ")
    ensures Strip(lead + t) == t && ',' !in lead + t
  {
    StripStripped(t);
    StripLeadingSpace(t);
    assert "" + t == t;
  }

  lemma SplitListingCons(first: string, t: string, rest: string)
    requires ',' !in first && Strip(first) == t && t != ""
    ensures NonBlank(Split(first + [','] + rest, ',')) == [t] + NonBlank(Split(rest, ','))
  {
    SplitAt(first, ',', rest);
    NonBlankCons(first, t, Split(rest, ','));
  }

  lemma SplitListingOne(first: string, t: string)
    requires ',' !in first && Strip(first) == t && t != ""
    ensures NonBlank(Split(first, ',')) == [t]
  {
    SplitWithout(first, ',');
    NonBlankCons(first, t, []);
    assert [first] + [] == [first];
  }

  lemma Reassociate(lead: string, t: string, rest: string)
    ensures lead + (t + ", " + rest) == (lead + t) + [','] + (" " + rest)
  {
  }

  lemma {:induction false} SplitListing(texts: seq<string>, lead: string)
    requires texts != [] && Listable(texts) && (lead == "" || lead == " ")
    ensures NonBlank(Split(lead + Join(texts, ", "), ',')) == texts
  {
    var first := lead + texts[0];
    StripWithLead(texts[0], lead);
    hide Stripped, Strip;
    if |texts| == 1 {
      SplitListingOne(first, texts[0]);
      assert [texts[0]] == texts;
    } else {
      var rest := " " + Join(texts[1..], ", ");
      SplitListing(texts[1..], " ");
      Reassociate(lead, texts[0], Join(texts[1..], ", "));
      SplitListingCons(first, texts[0], rest);
      assert [texts[0]] + texts[1..] == texts;
    }
  }

  lemma ListingReadsBack(texts: seq<string>)
    requires texts != [] && Listable(texts)
    ensures Routes(Join(texts, ", ")) == texts
  {
    SplitListing(texts, "");
    assert "" + Join(texts, ", ") == Join(texts, ", ");
  }

  lemma NetworkTextsListable(routes: seq<string>)
    requires AllParse(routes)
    ensures Listable(NetworkTexts(routes))
    ensures forall i :: 0 <= i < |routes| ==>
              IPv4.Parse(NetworkTexts(routes)[i]) == Some(IPv4.Network(IPv4.Parse(routes[i]).value))
    ensures forall i :: 0 <= i < |routes| ==> |NetworkTexts(routes)[i]| <= 18
  {
    forall i | 0 <= i < |routes|
      ensures var t := NetworkTexts(routes)[i];
              t != "" && Stripped(t) && ',' !in t && |t| <= 18
              && IPv4.Parse(t) == Some(IPv4.Network(IPv4.Parse(routes[i]).value))
    {
      var n := IPv4.Network(IPv4.Parse(routes[i]).value);
      IPv4.PrintedText(n);
      IPv4.RoundTrip(n);
    }
  }

  /** The entries of a normalized list, read back from its text. */
  lemma NormalizedEntries(value: string) returns (entries: seq<string>)
    requires NormalizeAllowedIps(value).Ok?
    ensures entries == Deduplicated(NetworkTexts(Routes(value)))
    ensures NormalizeAllowedIps(value).value == Join(entries, ", ")
    ensures Routes(NormalizeAllowedIps(value).value) == entries
    ensures 0 < |entries| <= MAX_ROUTES && Distinct(entries)
    ensures forall t :: t in entries <==> t in NetworkTexts(Routes(value))
  {
    var routes := Routes(value);
    var texts := NetworkTexts(routes);
    entries := Deduplicated(texts);
    DeduplicatedElements(texts);
    NetworkTextsListable(routes);
    assert texts[0] in entries;
    hide NetworkTexts, Stripped;
    ListableSublist(entries, texts);
    ListingReadsBack(entries);
  }

  lemma ListableSublist(entries: seq<string>, texts: seq<string>)
    requires Listable(texts) && forall t :: t in entries ==> t in texts
    ensures Listable(entries)
  {
    hide Stripped;
    forall i | 0 <= i < |entries| ensures entries[i] != "" && Stripped(entries[i]) && ',' !in entries[i] {
      assert entries[i] in entries;
      assert entries[i] in texts;
    }
  }

  // ---- what normalization promises

  lemma NetworkTextsOfNetworks(entries: seq<string>)
    requires AllParse(entries)
    requires forall i :: 0 <= i < |entries| ==>
               exists c: IPv4.Cidr :: IPv4.ValidCidr(c) && entries[i] == IPv4.Print(IPv4.Network(c))
    ensures NetworkTexts(entries) == entries
  {
    forall i | 0 <= i < |entries| ensures NetworkTexts(entries)[i] == entries[i] {
      var c: IPv4.Cidr :| IPv4.ValidCidr(c) && entries[i] == IPv4.Print(IPv4.Network(c));
      IPv4.RoundTrip(IPv4.Network(c));
      IPv4.NetworkKeepsBlock(c);
    }
  }

  lemma PrintedNetwork(routes: seq<string>, text: string)
    requires AllParse(routes) && text in NetworkTexts(routes)
    ensures IPv4.Parse(text).Some?
    ensures exists c: IPv4.Cidr :: IPv4.ValidCidr(c) && text == IPv4.Print(IPv4.Network(c))
  {
    var j :| 0 <= j < |routes| && text == NetworkTexts(routes)[j];
    var c := IPv4.Parse(routes[j]).value;
    hide IPv4.Print, IPv4.Network, IPv4.Parse;
    assert text == IPv4.Print(IPv4.Network(c));
    IPv4.RoundTrip(IPv4.Network(c));
  }

  lemma NormalizedParses(value: string, entries: seq<string>)
    requires NormalizeAllowedIps(value).Ok?
    requires entries == Deduplicated(NetworkTexts(Routes(value)))
    ensures AllParse(entries) && NetworkTexts(entries) == entries
  {
    var routes := Routes(value);
    DeduplicatedElements(NetworkTexts(routes));
    NetworkTextsListable(routes);
    forall i | 0 <= i < |entries|
      ensures IPv4.Parse(entries[i]).Some?
      ensures exists c: IPv4.Cidr :: IPv4.ValidCidr(c) && entries[i] == IPv4.Print(IPv4.Network(c))
    {
      assert entries[i] in entries;
      PrintedNetwork(routes, entries[i]);
    }
    hide NetworkTexts, IPv4.Print, IPv4.Network;
    NetworkTextsOfNetworks(entries);
  }

  /** Normalizing a normalized list returns the same text. */
  lemma NormalizeIsIdempotent(value: string)
    requires NormalizeAllowedIps(value).Ok?
    ensures NormalizeAllowedIps(NormalizeAllowedIps(value).value) == NormalizeAllowedIps(value)
  {
    var entries := NormalizedEntries(value);
    NormalizedParses(value, entries);
    hide IPv4.Parse, AllParse, NetworkTexts, Routes;
    DistinctUnchanged(entries);
  }

  /** The address is in one of the list's blocks. */
  ghost predicate Covers(routes: seq<string>, address: int)
    requires AllParse(routes)
  {
    exists i :: 0 <= i < |routes| && IPv4.Contains(IPv4.Parse(routes[i]).value, address)
  }

  lemma NetworkTextContains(routes: seq<string>, i: nat, address: int)
    requires AllParse(routes) && i < |routes|
    ensures IPv4.Parse(NetworkTexts(routes)[i]).Some?
    ensures IPv4.Contains(IPv4.Parse(NetworkTexts(routes)[i]).value, address)
       <==> IPv4.Contains(IPv4.Parse(routes[i]).value, address)
  {
    NetworkTextsListable(routes);
    IPv4.NetworkKeepsBlock(IPv4.Parse(routes[i]).value);
  }

  lemma BlocksAreCovered(routes: seq<string>, entries: seq<string>, address: int)
    requires AllParse(routes) && AllParse(entries) && Covers(routes, address)
    requires forall t :: t in NetworkTexts(routes) ==> t in entries
    ensures Covers(entries, address)
  {
    var i :| 0 <= i < |routes| && IPv4.Contains(IPv4.Parse(routes[i]).value, address);
    var t := NetworkTexts(routes)[i];
    NetworkTextContains(routes, i, address);
    hide IPv4.Parse, IPv4.Contains;
    assert t in entries;
    var j :| 0 <= j < |entries| && entries[j] == t;
  }

  lemma BlocksCover(routes: seq<string>, entries: seq<string>, address: int)
    requires AllParse(routes) && AllParse(entries) && Covers(entries, address)
    requires forall t :: t in entries ==> t in NetworkTexts(routes)
    ensures Covers(routes, address)
  {
    var j :| 0 <= j < |entries| && IPv4.Contains(IPv4.Parse(entries[j]).value, address);
    var t := entries[j];
    hide IPv4.Parse, IPv4.Contains;
    assert t in NetworkTexts(routes);
    var i :| 0 <= i < |routes| && t == NetworkTexts(routes)[i];
    NetworkTextContains(routes, i, address);
  }

  /** Normalization keeps the set of routed addresses. */
  lemma NormalizeKeepsAddresses(value: string, address: int)
    requires NormalizeAllowedIps(value).Ok?
    ensures AllParse(Routes(value)) && AllParse(Routes(NormalizeAllowedIps(value).value))
    ensures Covers(Routes(value), address) <==> Covers(Routes(NormalizeAllowedIps(value).value), address)
  {
    var routes := Routes(value);
    var entries := NormalizedEntries(value);
    NormalizedParses(value, entries);
    hide Covers, NetworkTexts;
    if Covers(routes, address) {
      BlocksAreCovered(routes, entries, address);
    } else if Covers(entries, address) {
      BlocksCover(routes, entries, address);
    }
  }

  lemma {:induction false} JoinLength(texts: seq<string>, width: nat)
    requires texts != [] && forall i :: 0 <= i < |texts| ==> |texts[i]| <= width
    ensures |Join(texts, ", ")| <= |texts| * (width + 2) - 2
  {
    if |texts| <= 1 {
    } else {
      JoinLength(texts[1..], width);
      assert (|texts| - 1) * (width + 2) + (width + 2) == |texts| * (width + 2);
    }
  }

  /** Every entry of the normalized list is a block with no host bits, in at most 18 characters. */
  lemma NormalizedBlocks(value: string, i: nat)
    requires NormalizeAllowedIps(value).Ok? && i < |Routes(NormalizeAllowedIps(value).value)|
    ensures var entry := Routes(NormalizeAllowedIps(value).value)[i];
            && |entry| <= 18
            && IPv4.Parse(entry).Some?
            && IPv4.Parse(entry).value.address % IPv4.BlockSize(IPv4.Parse(entry).value.length) == 0
  {
    var routes := Routes(value);
    var entries := NormalizedEntries(value);
    NetworkTextsListable(routes);
    assert entries[i] in entries;
    var j :| 0 <= j < |routes| && entries[i] == NetworkTexts(routes)[j];
    IPv4.NetworkKeepsBlock(IPv4.Parse(routes[j]).value);
  }

  /** No entry appears twice, and entries stand in the order of their first occurrence. */
  lemma NormalizedOrder(value: string, n: nat)
    requires NormalizeAllowedIps(value).Ok? && n <= |Routes(value)|
    ensures Distinct(Routes(NormalizeAllowedIps(value).value))
    ensures Deduplicated(NetworkTexts(Routes(value))[..n]) <= Routes(NormalizeAllowedIps(value).value)
  {
    var entries := NormalizedEntries(value);
    DeduplicatedOrder(NetworkTexts(Routes(value)), n);
  }

  /** Thirty-two blocks and their separators always fit the database column. */
  lemma NormalizedFits(value: string)
    requires NormalizeAllowedIps(value).Ok?
    ensures |NormalizeAllowedIps(value).value| <= 638 < COLUMN_WIDTH
  {
    var entries := NormalizedEntries(value);
    hide NormalizeAllowedIps, Routes;
    forall i | 0 <= i < |entries| ensures |entries[i]| <= 18 {
      NormalizedBlocks(value, i);
    }
    JoinLength(entries, 18);
  }

  /** The routes of a list are its parts between commas, stripped, without blank ones. */
  lemma {:induction false} RoutesAre(parts: seq<string>, t: string)
    ensures t in NonBlank(parts) <==> t != "" && exists i :: 0 <= i < |parts| && Strip(parts[i]) == t
  {
    if parts == [] {
    } else {
      RoutesAre(parts[1..], t);
      hide Strip;
      assert parts == [parts[0]] + parts[1..];
      assert forall i :: 1 <= i < |parts| ==> parts[i] == parts[1..][i - 1];
      if i :| 0 <= i < |parts[1..]| && Strip(parts[1..][i]) == t {
        assert parts[i + 1] == parts[1..][i];
      }
    }
  }

  /** A list is accepted if and only if it has 1 to 32 routes and all are addresses or blocks. */
  lemma AcceptedIff(value: string)
    ensures NormalizeAllowedIps(value).Ok? <==>
              1 <= |Routes(value)| <= 32 && forall t :: t in Routes(value) ==> IPv4.Parse(t).Some?
  {
    hide Routes, IPv4.Parse;
    assert forall i :: 0 <= i < |Routes(value)| ==> Routes(value)[i] in Routes(value);
  }

  /** So 1 to 32 addresses or blocks, listed with commas, are accepted. */
  lemma ListsAreAccepted(texts: seq<string>)
    requires texts != [] && Listable(texts)
    ensures NormalizeAllowedIps(Join(texts, ", ")).Ok? <==> |texts| <= 32 && forall t :: t in texts ==> IPv4.Parse(t).Some?
  {
    hide IPv4.Parse;
    ListingReadsBack(texts);
    AcceptedIff(Join(texts, ", "));
  }

  /** A printed block alone is an accepted list. */
  lemma PrintedIsAccepted(c: IPv4.Cidr)
    requires IPv4.ValidCidr(c)
    ensures NormalizeAllowedIps(IPv4.Print(c)).Ok?
  {
    var text := IPv4.Print(c);
    IPv4.PrintedText(c);
    IPv4.RoundTrip(c);
    assert Listable([text]);
    ListingReadsBack([text]);
    assert Join([text], ", ") == text;
  }

  // ---- peer addresses

  /** An address inside the network and different from the server's own, in canonical text. */
  function AddressBelongs(networkCidr: string, address: string): Result<string, RouteError> {
    match (IPv4.Parse(networkCidr), IPv4.Parse(address))
    case (Some(server), Some(peer)) =>
      if peer.address / IPv4.BlockSize(server.length) != server.address / IPv4.BlockSize(server.length)
         || peer.address == server.address
      then Err(ForeignAddress)
      else Ok(IPv4.Print(peer))
    case _ => Err(InvalidRoute)
  }

  /** Accepted addresses are canonical, lie in the server's block, are not the server's, and are accepted again unchanged. */
  lemma AddressBelongsIsCanonical(networkCidr: string, address: string)
    requires AddressBelongs(networkCidr, address).Ok?
    ensures var text := AddressBelongs(networkCidr, address).value;
            && IPv4.Parse(text) == IPv4.Parse(address)
            && IPv4.Contains(IPv4.Parse(networkCidr).value, IPv4.Parse(text).value.address)
            && IPv4.Parse(text).value.address != IPv4.Parse(networkCidr).value.address
            && AddressBelongs(networkCidr, text) == Ok(text)
  {
    IPv4.RoundTrip(IPv4.Parse(address).value);
  }

  /** An address is accepted if and only if it lies in the server's block and is not the server's own. */
  lemma BelongsIff(networkCidr: string, address: string)
    ensures AddressBelongs(networkCidr, address).Ok? <==>
              && IPv4.Parse(networkCidr).Some? && IPv4.Parse(address).Some?
              && IPv4.Contains(IPv4.Parse(networkCidr).value, IPv4.Parse(address).value.address)
              && IPv4.Parse(address).value.address != IPv4.Parse(networkCidr).value.address
  {
    hide IPv4.Parse;
  }
}
