/** The JSON that access tokens carry: objects of strings, natural numbers and lists of strings, printed compactly in ASCII. */
module Json {
  import opened Wrappers
  import Decimal

  datatype Value = Text(s: string) | Number(n: nat) | Texts(list: seq<string>)

  datatype Member = Member(key: string, value: Value)

  // ---- characters

  function HexChar(d: int): (c: char)
    requires 0 <= d < 16
  {
    if d < 10 then ('0' as int + d) as char else ('a' as int + (d - 10)) as char
  }

  function HexValue(c: char): (v: Option<int>)
    ensures v.Some? ==> 0 <= v.value < 16
  {
    if '0' <= c <= '9' then Some(c as int - '0' as int)
    else if 'a' <= c <= 'f' then Some(c as int - 'a' as int + 10)
    else if 'A' <= c <= 'F' then Some(c as int - 'A' as int + 10)
    else None
  }

  function HexEscape(n: int): (s: string)
    requires 0 <= n < 0x1_0000
    ensures |s| == 6
  {
    ['\\', 'u', HexChar(n / 0x1000), HexChar(n / 0x100 % 16), HexChar(n / 16 % 16), HexChar(n % 16)]
  }

  /** Printable ASCII stands for itself; everything else is escaped, beyond the basic plane as a surrogate pair. */
  function EscapeChar(c: char): string {
    var n := c as int;
    if c == '"' then "\\\"" else if c == '\\' then "\\\\"
    else if n == 10 then "\\n" else if n == 13 then "\\r" else if n == 9 then "\\t"
    else if n == 12 then "\\f" else if n == 8 then "\\b"
    else if 0x20 <= n <= 0x7e then [c]
    else if n < 0x1_0000 then HexEscape(n)
    else HexEscape(0xd800 + (n - 0x1_0000) / 0x400) + HexEscape(0xdc00 + (n - 0x1_0000) % 0x400)
  }

  function Escape(s: string): string {
    if s == "" then "" else EscapeChar(s[0]) + Escape(s[1..])
  }

  function PrintText(s: string): string {
    "\"" + Escape(s) + "\""
  }

  /** The four digits after \u. */
  function ReadHex(s: string): (n: Option<int>)
    ensures n.Some? ==> |s| >= 6 && 0 <= n.value < 0x1_0000
  {
    if |s| < 6 || s[0] != '\\' || s[1] != 'u' then None
    else
      var a, b, c, d := HexValue(s[2]), HexValue(s[3]), HexValue(s[4]), HexValue(s[5]);
      if a.None? || b.None? || c.None? || d.None? then None
      else Some(a.value * 0x1000 + b.value * 0x100 + c.value * 16 + d.value)
  }

  /** One character and how much text it took; an unpaired surrogate has no character. */
  function ReadChar(s: string): (r: Option<(char, nat)>)
    ensures r.Some? ==> 0 < r.value.1 <= |s|
  {
    if s == "" || s[0] as int < 0x20 || s[0] == '"' then None
    else if s[0] != '\\' then Some((s[0], 1))
    else if |s| < 2 then None
    else if s[1] == '"' || s[1] == '\\' || s[1] == '/' then Some((s[1], 2))
    else if s[1] == 'n' then Some(('\n', 2)) else if s[1] == 'r' then Some(('\r', 2)) else if s[1] == 't' then Some(('\t', 2))
    else if s[1] == 'f' then Some((12 as char, 2)) else if s[1] == 'b' then Some((8 as char, 2))
    else
      match ReadHex(s)
      case None => None
      case Some(n) =>
        if n < 0xd800 || 0xe000 <= n then Some((n as char, 6))
        else if n < 0xdc00 && ReadHex(s[6..]).Some? && 0xdc00 <= ReadHex(s[6..]).value < 0xe000 then
          Some(((0x1_0000 + (n - 0xd800) * 0x400 + (ReadHex(s[6..]).value - 0xdc00)) as char, 12))
        else None
  }

  /** The text up to the closing quote, and what follows it. */
  function ReadText(s: string): (r: Option<(string, string)>)
    ensures r.Some? ==> |r.value.1| < |s|
    decreases |s|
  {
    if s != "" && s[0] == '"' then Some(("", s[1..]))
    else
      match ReadChar(s)
      case None => None
      case Some((c, n)) =>
        var r := ReadText(s[n..]);
        if r.None? then None else Some(([c] + r.value.0, r.value.1))
  }

  lemma HexDigit(d: int)
    requires 0 <= d < 16
    ensures HexValue(HexChar(d)) == Some(d)
  {
  }

  lemma HexDigits(a: int, b: int, c: int, d: int, rest: string)
    requires 0 <= a < 16 && 0 <= b < 16 && 0 <= c < 16 && 0 <= d < 16
    ensures ReadHex(['\\', 'u', HexChar(a), HexChar(b), HexChar(c), HexChar(d)] + rest)
         == Some(a * 0x1000 + b * 0x100 + c * 16 + d)
  {
    HexDigit(a);
    HexDigit(b);
    HexDigit(c);
    HexDigit(d);
    hide HexValue, HexChar;
  }

  lemma HexSum(n: int)
    requires 0 <= n < 0x1_0000
    ensures n / 0x1000 * 0x1000 + n / 0x100 % 16 * 0x100 + n / 16 % 16 * 16 + n % 16 == n
    ensures 0 <= n / 0x1000 < 16
  {
    assert n / 0x100 == n / 16 / 16 && n / 0x1000 == n / 16 / 16 / 16;
  }

  lemma HexRoundTrip(n: int, rest: string)
    requires 0 <= n < 0x1_0000
    ensures ReadHex(HexEscape(n) + rest) == Some(n)
  {
    hide HexValue, HexChar, ReadHex;
    HexSum(n);
    HexDigits(n / 0x1000, n / 0x100 % 16, n / 16 % 16, n % 16, rest);
  }

  lemma PairRoundTrip(c: char, rest: string)
    requires c as int >= 0x1_0000
    ensures ReadChar(EscapeChar(c) + rest) == Some((c, 12))
  {
    var m := c as int - 0x1_0000;
    var h, l := 0xd800 + m / 0x400, 0xdc00 + m % 0x400;
    var s := EscapeChar(c) + rest;
    assert s == HexEscape(h) + (HexEscape(l) + rest);
    HexRoundTrip(h, HexEscape(l) + rest);
    HexRoundTrip(l, rest);
    assert s[6..] == HexEscape(l) + rest;
    assert s[1] == 'u' && s[0] == '\\';
  }

  lemma CharRoundTrip(c: char, rest: string)
    ensures ReadChar(EscapeChar(c) + rest) == Some((c, |EscapeChar(c)|))
  {
    var n := c as int;
    if n >= 0x1_0000 {
      PairRoundTrip(c, rest);
    } else if c != '"' && c != '\\' && n != 10 && n != 13 && n != 9 && n != 12 && n != 8 && !(0x20 <= n <= 0x7e) {
      HexRoundTrip(n, rest);
      assert (EscapeChar(c) + rest)[1] == 'u';
    }
  }

  lemma {:induction false} TextRoundTrip(s: string, rest: string)
    ensures ReadText(Escape(s) + "\"" + rest) == Some((s, rest))
  {
    hide EscapeChar, ReadChar;
    if s == "" {
      EmptyTextRead(rest);
      assert Escape(s) + "\"" + rest == ['"'] + rest;
    } else {
      var c, tail := s[0], Escape(s[1..]) + "\"" + rest;
      TextRoundTrip(s[1..], rest);
      ReadEscaped(c, tail, s[1..], rest);
      assert Escape(s) == EscapeChar(c) + Escape(s[1..]);
      assert Escape(s) + "\"" + rest == EscapeChar(c) + tail;
      assert [c] + s[1..] == s;
    }
  }

  lemma EmptyTextRead(rest: string)
    ensures ReadText(['"'] + rest) == Some(("", rest))
  {
    assert (['"'] + rest)[1..] == rest;
  }

  lemma ReadEscaped(c: char, tail: string, x: string, rest: string)
    requires ReadText(tail) == Some((x, rest))
    ensures ReadText(EscapeChar(c) + tail) == Some(([c] + x, rest))
  {
    var e := EscapeChar(c);
    CharRoundTrip(c, tail);
    EscapeStart(c);
    hide EscapeChar, ReadChar;
    assert (e + tail)[0] == e[0] && (e + tail)[|e|..] == tail;
  }

  lemma EscapeStart(c: char)
    ensures EscapeChar(c) != "" && EscapeChar(c)[0] != '"'
    ensures forall i :: 0 <= i < |EscapeChar(c)| ==> EscapeChar(c)[i] as int < 128
  {
  }

  // ---- values

  function PrintTexts(list: seq<string>): string {
    if list == [] then "]"
    else (PrintText(list[0]) + (if |list| == 1 then "" else ",")) + PrintTexts(list[1..])
  }

  function PrintValue(v: Value): string {
    match v
    case Text(s) => PrintText(s)
    case Number(n) => Decimal.Print(n)
    case Texts(list) => "[" + PrintTexts(list)
  }

  function PrintMembers(o: seq<Member>): string {
    if o == [] then "}"
    else (PrintText(o[0].key) + ":" + PrintValue(o[0].value) + (if |o| == 1 then "" else ",")) + PrintMembers(o[1..])
  }

  function PrintObject(o: seq<Member>): string {
    "{" + PrintMembers(o)
  }

  /** The rest of a list; first says whether an element or the end may come without a comma. */
  function ReadTexts(s: string, first: bool): (r: Option<(seq<string>, string)>)
    ensures r.Some? ==> |r.value.1| < |s|
    decreases |s|
  {
    if s != "" && s[0] == ']' then Some(([], s[1..]))
    else
      var t := if first then s else if s != "" && s[0] == ',' then s[1..] else "";
      if t == "" || t[0] != '"' then None
      else
        match ReadText(t[1..])
        case None => None
        case Some((x, u)) =>
          var r := ReadTexts(u, false);
          if r.None? then None else Some(([x] + r.value.0, r.value.1))
  }

  function DigitCount(s: string): (n: nat)
    ensures n <= |s|
  {
    if s != "" && Decimal.IsDigit(s[0]) then 1 + DigitCount(s[1..]) else 0
  }

  function ReadValue(s: string): (r: Option<(Value, string)>)
    ensures r.Some? ==> |r.value.1| < |s|
  {
    if s == "" then None
    else if s[0] == '"' then
      match ReadText(s[1..]) case None => None case Some((x, u)) => Some((Text(x), u))
    else if s[0] == '[' then
      match ReadTexts(s[1..], true) case None => None case Some((x, u)) => Some((Texts(x), u))
    else
      match Decimal.Parse(s[..DigitCount(s)]) case None => None case Some(n) => Some((Number(n), s[DigitCount(s)..]))
  }

  function ReadMembers(s: string, first: bool): (r: Option<(seq<Member>, string)>)
    decreases |s|
  {
    if s != "" && s[0] == '}' then Some(([], s[1..]))
    else
      var t := if first then s else if s != "" && s[0] == ',' then s[1..] else "";
      if t == "" || t[0] != '"' then None
      else
        match ReadText(t[1..])
        case None => None
        case Some((key, u)) =>
          if u == "" || u[0] != ':' then None
          else
            match ReadValue(u[1..])
            case None => None
            case Some((value, v)) =>
              var r := ReadMembers(v, false);
              if r.None? then None else Some(([Member(key, value)] + r.value.0, r.value.1))
  }

  /** A whole document that is one object. */
  function ReadObject(s: string): Option<seq<Member>> {
    if s == "" || s[0] != '{' then None
    else
      var r := ReadMembers(s[1..], true);
      if r.Some? && r.value.1 == "" then Some(r.value.0) else None
  }

  // ---- reading undoes printing

  lemma ReadPrintedText(s: string, rest: string)
    ensures PrintText(s) + rest == "\"" + (Escape(s) + "\"" + rest)
    ensures ReadText((PrintText(s) + rest)[1..]) == Some((s, rest))
  {
    var e := Escape(s);
    TextRoundTrip(s, rest);
    QuotedTail(e, rest);
  }

  lemma QuotedTail(e: string, rest: string)
    ensures ("\"" + e + "\"") + rest == "\"" + (e + "\"" + rest)
    ensures (("\"" + e + "\"") + rest)[1..] == e + "\"" + rest
  {
  }

  /** What printed lists and members look like to a reader that expects a comma before every element but the first. */
  function Lead(first: bool, empty: bool): string {
    if first || empty then "" else ","
  }

  lemma TextsStep(x: string, u: string, first: bool, l: seq<string>, rest: string)
    requires ReadTexts(u, false) == Some((l, rest))
    ensures ReadTexts(Lead(first, false) + (PrintText(x) + u), first) == Some(([x] + l, rest))
  {
    var t := PrintText(x) + u;
    var s := Lead(first, false) + t;
    ReadPrintedText(x, u);
    assert t[0] == '"';
    assert first ==> s == t;
    assert !first ==> s[0] == ',' && s[1..] == t;
  }

  lemma {:induction false} TextsRoundTrip(list: seq<string>, first: bool, rest: string)
    ensures ReadTexts(Lead(first, list == []) + (PrintTexts(list) + rest), first) == Some((list, rest))
  {
    if list == [] {
      assert (PrintTexts(list) + rest)[1..] == rest;
      assert Lead(first, true) + (PrintTexts(list) + rest) == PrintTexts(list) + rest;
    } else {
      var x, tail := list[0], list[1..];
      var lead := Lead(false, tail == []);
      var u := lead + (PrintTexts(tail) + rest);
      TextsRoundTrip(tail, false, rest);
      TextsStep(x, u, first, tail, rest);
      Regroup(PrintText(x), lead, PrintTexts(tail), rest);
      assert [x] + tail == list;
    }
  }

  lemma Regroup(a: string, b: string, c: string, d: string)
    ensures ((a + b) + c) + d == a + (b + (c + d))
  {
  }

  lemma {:induction false} DigitCountOf(w: string, rest: string)
    requires Decimal.AllDigits(w) && (rest == "" || !Decimal.IsDigit(rest[0]))
    ensures DigitCount(w + rest) == |w|
  {
    if w == "" {
      assert w + rest == rest;
    } else {
      DigitCountOf(w[1..], rest);
      assert (w + rest)[1..] == w[1..] + rest;
    }
  }

  lemma NumberRoundTrip(n: nat, rest: string)
    requires rest == "" || !Decimal.IsDigit(rest[0])
    ensures ReadValue(Decimal.Print(n) + rest) == Some((Number(n), rest))
  {
    var w := Decimal.Print(n);
    var s := w + rest;
    DigitCountOf(w, rest);
    Decimal.ParsePrint(n);
    assert s[..|w|] == w && s[|w|..] == rest;
    assert Decimal.IsDigit(w[0]) && s[0] == w[0];
  }

  lemma TextValue(x: string, rest: string)
    ensures ReadValue(PrintText(x) + rest) == Some((Text(x), rest))
  {
    ReadPrintedText(x, rest);
    assert (PrintText(x) + rest)[0] == '"';
  }

  lemma ListValue(list: seq<string>, rest: string)
    ensures ReadValue("[" + PrintTexts(list) + rest) == Some((Texts(list), rest))
  {
    var t := PrintTexts(list) + rest;
    TextsRoundTrip(list, true, rest);
    assert "" + t == t;
    OpenedList(t, list, rest);
    assert "[" + PrintTexts(list) + rest == ['['] + t;
  }

  lemma OpenedList(t: string, list: seq<string>, rest: string)
    requires ReadTexts(t, true) == Some((list, rest))
    ensures ReadValue(['['] + t) == Some((Texts(list), rest))
  {
    assert (['['] + t)[1..] == t;
  }

  lemma ValueRoundTrip(v: Value, rest: string)
    requires rest == "" || !Decimal.IsDigit(rest[0])
    ensures ReadValue(PrintValue(v) + rest) == Some((v, rest))
  {
    match v {
      case Text(x) =>
        TextValue(x, rest);
      case Texts(list) =>
        ListValue(list, rest);
      case Number(n) =>
        NumberRoundTrip(n, rest);
    }
  }

  lemma MembersStep(m: Member, v: string, first: bool, l: seq<Member>, rest: string)
    requires ReadMembers(v, false) == Some((l, rest)) && (v == "" || !Decimal.IsDigit(v[0]))
    ensures ReadMembers(Lead(first, false) + (PrintText(m.key) + (":" + (PrintValue(m.value) + v))), first) == Some(([m] + l, rest))
  {
    var w := PrintValue(m.value) + v;
    var t := PrintText(m.key) + (":" + w);
    var s := Lead(first, false) + t;
    ReadPrintedText(m.key, ":" + w);
    ValueRoundTrip(m.value, v);
    hide PrintValue, ReadValue;
    assert (":" + w)[1..] == w;
    assert t[0] == '"';
    assert first ==> s == t;
    assert !first ==> s[0] == ',' && s[1..] == t;
  }

  lemma MembersShape(k: string, p: string, lead: string, tail: string, rest: string)
    ensures (k + ":" + p + lead + tail) + rest == k + (":" + (p + (lead + (tail + rest))))
  {
  }

  lemma {:induction false} MembersRoundTrip(o: seq<Member>, first: bool, rest: string)
    ensures ReadMembers(Lead(first, o == []) + (PrintMembers(o) + rest), first) == Some((o, rest))
  {
    if o == [] {
      assert (PrintMembers(o) + rest)[1..] == rest;
      assert Lead(first, true) + (PrintMembers(o) + rest) == PrintMembers(o) + rest;
    } else {
      var m, tail := o[0], o[1..];
      var lead := Lead(false, tail == []);
      var v := lead + (PrintMembers(tail) + rest);
      assert v[0] == (if tail == [] then '}' else ',');
      MembersRoundTrip(tail, false, rest);
      MembersStep(m, v, first, tail, rest);
      MembersShape(PrintText(m.key), PrintValue(m.value), lead, PrintMembers(tail), rest);
      assert [m] + tail == o;
    }
  }

  /** Parsing a printed object returns its members in order. */
  lemma ObjectRoundTrip(o: seq<Member>)
    ensures ReadObject(PrintObject(o)) == Some(o)
  {
    var t := PrintMembers(o);
    MembersRoundTrip(o, true, "");
    assert "" + (t + "") == t;
    assert PrintObject(o)[1..] == t;
  }

  // ---- the printed text is ASCII

  predicate IsAscii(s: string) {
    forall i :: 0 <= i < |s| ==> s[i] as int < 128
  }

  lemma {:induction false} EscapeIsAscii(s: string)
    ensures IsAscii(Escape(s))
  {
    if s == "" {
    } else {
      EscapeStart(s[0]);
      EscapeIsAscii(s[1..]);
    }
  }

  lemma {:induction false} TextsAreAscii(list: seq<string>)
    ensures IsAscii(PrintTexts(list))
  {
    if list == [] {
    } else {
      EscapeIsAscii(list[0]);
      TextsAreAscii(list[1..]);
    }
  }

  lemma ValueIsAscii(v: Value)
    ensures IsAscii(PrintValue(v))
  {
    match v {
      case Text(s) => EscapeIsAscii(s);
      case Number(n) =>
      case Texts(list) => TextsAreAscii(list);
    }
  }

  lemma AsciiConcat(a: string, b: string)
    requires IsAscii(a) && IsAscii(b)
    ensures IsAscii(a + b)
  {
  }

  lemma {:induction false} MembersAreAscii(o: seq<Member>)
    ensures IsAscii(PrintMembers(o))
  {
    if o == [] {
    } else {
      var k, p := PrintText(o[0].key), PrintValue(o[0].value);
      EscapeIsAscii(o[0].key);
      ValueIsAscii(o[0].value);
      MembersAreAscii(o[1..]);
      hide PrintText, PrintValue;
      AsciiConcat(k, ":");
      AsciiConcat(k + ":", p);
      AsciiConcat(k + ":" + p, if |o| == 1 then "" else ",");
      AsciiConcat(k + ":" + p + (if |o| == 1 then "" else ","), PrintMembers(o[1..]));
    }
  }

  lemma ObjectIsAscii(o: seq<Member>)
    ensures IsAscii(PrintObject(o))
  {
    MembersAreAscii(o);
    AsciiConcat("{", PrintMembers(o));
  }
}
