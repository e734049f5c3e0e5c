/** IPv4 addresses and CIDR blocks (section 3.1 of RFC 4632) as text, following the standard library's parser. */
module IPv4 {
  import opened Wrappers
  import opened Text
  import Decimal
  import Modular

  const ALL_ADDRESSES := 0x1_0000_0000

  /** An address with a prefix length: an interface, or a network when its host bits are zero. */
  datatype Cidr = Cidr(address: int, length: int)

  ghost predicate ValidCidr(c: Cidr) {
    0 <= c.address < ALL_ADDRESSES && 0 <= c.length <= 32
  }

  function Power(n: nat): (p: int)
    ensures p >= 1
  {
    if n == 0 then 1 else 2 * Power(n - 1)
  }

  /** Number of addresses in a block of the given prefix length. */
  function BlockSize(length: int): (size: int)
    requires 0 <= length <= 32
    ensures size >= 1
  {
    Power(32 - length)
  }

  /** The block an interface belongs to: its address with the host bits cleared. */
  function Network(c: Cidr): (n: Cidr)
    requires ValidCidr(c)
    ensures ValidCidr(n) && n.length == c.length
  {
    var size := BlockSize(c.length);
    assert 0 <= c.address % size <= c.address by { ModAtMost(c.address, size); }
    Cidr(c.address - c.address % size, c.length)
  }

  ghost predicate Contains(c: Cidr, address: int)
    requires ValidCidr(c)
  {
    0 <= address < ALL_ADDRESSES && address / BlockSize(c.length) == c.address / BlockSize(c.length)
  }

  lemma ModAtMost(a: int, m: int)
    requires a >= 0 && m >= 1
    ensures 0 <= a % m <= a
  {
    assert a == (a / m) * m + a % m;
    assert a / m >= 0 && (a / m) * m >= 0;
  }

  lemma BlockStart(a: int, m: int)
    requires m >= 1
    ensures (a - a % m) / m == a / m && (a - a % m) % m == 0
  {
    Modular.DivisionIsUnique(a - a % m, a / m, 0, m);
  }

  /** Clearing host bits keeps the block, and clearing them again changes nothing. */
  lemma NetworkKeepsBlock(c: Cidr)
    requires ValidCidr(c)
    ensures Network(c).address % BlockSize(c.length) == 0
    ensures Network(Network(c)) == Network(c)
    ensures forall a :: Contains(Network(c), a) <==> Contains(c, a)
  {
    BlockStart(c.address, BlockSize(c.length));
  }

  // ---- printing

  function Octet(a: int, i: int): (o: int)
    requires 0 <= a < ALL_ADDRESSES && 0 <= i < 4
    ensures 0 <= o < 256
  {
    if i == 0 then a / 0x100_0000 else if i == 1 then a / 0x1_0000 % 256 else if i == 2 then a / 256 % 256 else a % 256
  }

  function Octets(a: int): (parts: seq<string>)
    requires 0 <= a < ALL_ADDRESSES
  {
    [Decimal.Print(Octet(a, 0)), Decimal.Print(Octet(a, 1)), Decimal.Print(Octet(a, 2)), Decimal.Print(Octet(a, 3))]
  }

  function PrintAddress(a: int): string
    requires 0 <= a < ALL_ADDRESSES
  {
    Join(Octets(a), ".")
  }

  function Print(c: Cidr): string
    requires ValidCidr(c)
  {
    PrintAddress(c.address) + "/" + Decimal.Print(c.length)
  }

  // ---- parsing

  /** One to three digits, no leading zero, at most 255. */
  function ParseOctet(s: string): (o: Option<int>)
    ensures o.Some? ==> 0 <= o.value < 256
  {
    match Decimal.Parse(s)
    case None => None
    case Some(n) =>
      if |s| > 3 || (s != "0" && s[0] == '0') || n > 255 then None else Some(n)
  }

  function ParseAddress(s: string): (a: Option<int>)
    ensures a.Some? ==> 0 <= a.value < ALL_ADDRESSES
  {
    var parts := Split(s, '.');
    if |parts| != 4 then None
    else
      var a, b, c, d := ParseOctet(parts[0]), ParseOctet(parts[1]), ParseOctet(parts[2]), ParseOctet(parts[3]);
      if a.None? || b.None? || c.None? || d.None? then None
      else Some(a.value * 0x100_0000 + b.value * 0x1_0000 + c.value * 256 + d.value)
  }

  /** The prefix length whose netmask (or hostmask) has the given value, trying lengths from n down. */
  function MaskLength(mask: int, host: bool, n: nat): (length: Option<int>)
    requires n <= 32
    ensures length.Some? ==> 0 <= length.value <= n
  {
    if mask == (if host then BlockSize(n) - 1 else ALL_ADDRESSES - BlockSize(n)) then Some(n)
    else if n == 0 then None
    else MaskLength(mask, host, n - 1)
  }

  /** A prefix length in digits, else a dotted netmask, else a dotted hostmask. */
  function ParseMask(s: string): (length: Option<int>)
    ensures length.Some? ==> 0 <= length.value <= 32
  {
    var digits := Decimal.Parse(s);
    if digits.Some? && digits.value <= 32 then digits
    else
      match ParseAddress(s)
      case None => None
      case Some(mask) =>
        if MaskLength(mask, false, 32).Some? then MaskLength(mask, false, 32) else MaskLength(mask, true, 32)
  }

  function Parse(s: string): (c: Option<Cidr>)
    ensures c.Some? ==> ValidCidr(c.value)
  {
    var parts := Split(s, '/');
    if |parts| > 2 then None
    else
      var address, length := ParseAddress(parts[0]), if |parts| == 1 then Some(32) else ParseMask(parts[1]);
      if address.None? || length.None? then None else Some(Cidr(address.value, length.value))
  }

  // ---- parsing undoes printing

  lemma DigitsExclude(s: string, c: char)
    requires Decimal.AllDigits(s) && !Decimal.IsDigit(c)
    ensures c !in s
  {
  }

  lemma OctetRoundTrip(o: int)
    requires 0 <= o < 256
    ensures ParseOctet(Decimal.Print(o)) == Some(o)
  {
    Decimal.ParsePrint(o);
    Decimal.PrintShape(o);
    assert Decimal.Print(0) == "0";
  }

  lemma OctetsOfAddress(a: int)
    requires 0 <= a < ALL_ADDRESSES
    ensures Octet(a, 0) * 0x100_0000 + Octet(a, 1) * 0x1_0000 + Octet(a, 2) * 256 + Octet(a, 3) == a
  {
    var b := a / 256;
    var c := b / 256;
    assert a == b * 256 + Octet(a, 3);
    assert b == c * 256 + Octet(a, 2);
    NestedDivision(a);
    assert c == Octet(a, 0) * 256 + Octet(a, 1);
  }

  lemma NestedDivision(a: int)
    ensures a / 256 / 256 == a / 0x1_0000 && a / 0x1_0000 / 256 == a / 0x100_0000
  {
  }

  lemma AddressRoundTrip(a: int)
    requires 0 <= a < ALL_ADDRESSES
    ensures ParseAddress(PrintAddress(a)) == Some(a)
  {
    var parts := Octets(a);
    forall i | 0 <= i < 4 ensures '.' !in parts[i] && ParseOctet(parts[i]) == Some(Octet(a, i)) {
      DigitsExclude(parts[i], '.');
      OctetRoundTrip(Octet(a, i));
    }
    SplitJoin(parts, '.');
    OctetsOfAddress(a);
  }

  /** Characters that can appear in a printed address or block. */
  ghost predicate Plain(s: string) {
    forall i :: 0 <= i < |s| ==> Decimal.IsDigit(s[i]) || s[i] == '.' || s[i] == '/'
  }

  lemma AddressText(a: int)
    requires 0 <= a < ALL_ADDRESSES
    ensures Plain(PrintAddress(a)) && '/' !in PrintAddress(a)
    ensures 0 < |PrintAddress(a)| <= 15
  {
    var p := Octets(a);
    Decimal.PrintShape(Octet(a, 0));
    Decimal.PrintShape(Octet(a, 1));
    Decimal.PrintShape(Octet(a, 2));
    Decimal.PrintShape(Octet(a, 3));
    assert PrintAddress(a) == p[0] + "." + (p[1] + "." + (p[2] + "." + p[3])) by {
      assert Join(p[3..], ".") == p[3];
      assert p[1..][1..] == p[2..] && p[2..][1..] == p[3..];
      assert Join(p[2..], ".") == p[2] + "." + Join(p[3..], ".");
      assert Join(p[1..], ".") == p[1] + "." + Join(p[2..], ".");
    }
  }

  lemma PrintedText(c: Cidr)
    requires ValidCidr(c)
    ensures Plain(Print(c)) && 0 < |Print(c)| <= 18 && Stripped(Print(c))
  {
    AddressText(c.address);
    Decimal.PrintShape(c.length);
  }

  /** Parsing a printed interface or block returns it. */
  lemma RoundTrip(c: Cidr)
    requires ValidCidr(c)
    ensures Parse(Print(c)) == Some(c)
  {
    var a, n := PrintAddress(c.address), Decimal.Print(c.length);
    AddressText(c.address);
    DigitsExclude(n, '/');
    SplitAt(a, '/', n);
    SplitWithout(n, '/');
    AddressRoundTrip(c.address);
    Decimal.ParsePrint(c.length);
  }

  /** The mask forms agree: a dotted netmask means the prefix length it was built from. */
  lemma {:induction false} NetmaskLength(n: nat, from: nat)
    requires n <= from <= 32
    ensures MaskLength(ALL_ADDRESSES - BlockSize(n), false, from) == Some(n)
  {
    if from <= n {
    } else {
      PowerGrows(32 - from, 32 - n);
      NetmaskLength(n, from - 1);
    }
  }

  lemma {:induction false} PowerGrows(a: nat, b: nat)
    requires a < b
    ensures Power(a) < Power(b)
  {
    if a < b - 1 {
      PowerGrows(a, b - 1);
    }
  }

  // ---- exactly the printed forms are parsed

  /** An octet is accepted in decimal without a leading zero, up to 255. */
  lemma OctetIff(s: string, o: int)
    ensures ParseOctet(s) == Some(o) <==> 0 <= o < 256 && s == Decimal.Print(o)
  {
    if 0 <= o < 256 && s == Decimal.Print(o) {
      OctetRoundTrip(o);
    }
    if ParseOctet(s) == Some(o) {
      Decimal.PrintValue(s);
    }
  }

  ghost predicate Quad(a: int, b: int, c: int, d: int) {
    0 <= a < 256 && 0 <= b < 256 && 0 <= c < 256 && 0 <= d < 256
  }

  /** Four octets with dots are the address with the first octet at the top. */
  lemma DottedQuad(a: int, b: int, c: int, d: int)
    requires Quad(a, b, c, d)
    ensures ParseAddress(Decimal.Print(a) + "." + Decimal.Print(b) + "." + Decimal.Print(c) + "." + Decimal.Print(d))
         == Some(a * 0x100_0000 + b * 0x1_0000 + c * 256 + d)
  {
    hide ParseAddress, PrintAddress, Quad;
    var n := a * 0x100_0000 + b * 0x1_0000 + c * 256 + d;
    PrintsQuad(a, b, c, d, n);
    AddressRoundTrip(n);
    hide Decimal.Print;
    JoinFour([Decimal.Print(a), Decimal.Print(b), Decimal.Print(c), Decimal.Print(d)]);
  }

  lemma PrintsQuad(a: int, b: int, c: int, d: int, n: int)
    requires Quad(a, b, c, d) && n == a * 0x100_0000 + b * 0x1_0000 + c * 256 + d
    ensures 0 <= n < ALL_ADDRESSES
    ensures PrintAddress(n) == Join([Decimal.Print(a), Decimal.Print(b), Decimal.Print(c), Decimal.Print(d)], ".")
  {
    OctetsOfQuad(a, b, c, d, n);
    QuadIsPrinted(a, b, c, d, n);
  }

  lemma QuadIsPrinted(a: int, b: int, c: int, d: int, n: int)
    requires Quad(a, b, c, d) && 0 <= n < ALL_ADDRESSES
    requires Octet(n, 0) == a && Octet(n, 1) == b && Octet(n, 2) == c && Octet(n, 3) == d
    ensures PrintAddress(n) == Join([Decimal.Print(a), Decimal.Print(b), Decimal.Print(c), Decimal.Print(d)], ".")
  {
    hide Octet;
  }

  lemma JoinFour(p: seq<string>)
    requires |p| == 4
    ensures Join(p, ".") == p[0] + "." + p[1] + "." + p[2] + "." + p[3]
  {
    assert p[1..][1..] == p[2..] && p[2..][1..] == p[3..];
    assert Join(p[3..], ".") == p[3];
    assert Join(p[2..], ".") == p[2] + "." + p[3];
    assert Join(p[1..], ".") == p[1] + "." + (p[2] + "." + p[3]);
    assert p[0] + "." + (p[1] + "." + (p[2] + "." + p[3])) == p[0] + "." + p[1] + "." + p[2] + "." + p[3];
  }

  lemma OctetsOfQuad(a: int, b: int, c: int, d: int, n: int)
    requires Quad(a, b, c, d) && n == a * 0x100_0000 + b * 0x1_0000 + c * 256 + d
    ensures 0 <= n < ALL_ADDRESSES && Octet(n, 0) == a && Octet(n, 1) == b && Octet(n, 2) == c && Octet(n, 3) == d
  {
    var y := a * 0x1_0000 + b * 256 + c;
    var z := a * 256 + b;
    Modular.DivisionIsUnique(n, y, d, 256);
    Modular.DivisionIsUnique(y, z, c, 256);
    Modular.DivisionIsUnique(z, a, b, 256);
    NestedDivision(n);
    assert n / 0x1_0000 == z && n / 0x100_0000 == a;
  }

  /** An address is accepted in exactly one form. */
  lemma AddressIff(s: string, a: int)
    ensures ParseAddress(s) == Some(a) <==> 0 <= a < ALL_ADDRESSES && s == PrintAddress(a)
  {
    hide ParseAddress, PrintAddress;
    if 0 <= a < ALL_ADDRESSES && s == PrintAddress(a) {
      AddressRoundTrip(a);
    }
    if ParseAddress(s) == Some(a) {
      ParsedIsPrinted(s, a);
    }
  }

  lemma ParsedIsPrinted(s: string, a: int)
    requires ParseAddress(s) == Some(a)
    ensures 0 <= a < ALL_ADDRESSES && s == PrintAddress(a)
  {
    hide ParseOctet, PrintAddress;
    var parts := Split(s, '.');
    var w, x, y, z := ParseOctet(parts[0]).value, ParseOctet(parts[1]).value, ParseOctet(parts[2]).value, ParseOctet(parts[3]).value;
    OctetIff(parts[0], w);
    OctetIff(parts[1], x);
    OctetIff(parts[2], y);
    OctetIff(parts[3], z);
    PrintsQuad(w, x, y, z, a);
    JoinSplit(s, '.');
    assert parts == [Decimal.Print(w), Decimal.Print(x), Decimal.Print(y), Decimal.Print(z)];
  }

  /** A block is an address, alone or with a mask behind the slash. */
  lemma ParseIff(s: string, c: Cidr)
    ensures Parse(s) == Some(c) <==>
              ValidCidr(c) && ((c.length == 32 && s == PrintAddress(c.address)) || exists m :: HasMask(s, c, m))
  {
    hide ParseAddress, ParseMask, PrintAddress;
    var parts := Split(s, '/');
    JoinSplit(s, '/');
    SplitPartsFree(s, '/');
    if |parts| <= 2 {
      AddressIff(parts[0], c.address);
    }
    if |parts| == 2 {
      assert Join(parts, ['/']) == parts[0] + ['/'] + parts[1] by {
        assert parts[1..] == [parts[1]];
      }
      if Parse(s) == Some(c) {
        assert HasMask(s, c, parts[1]);
      }
    }
    if ValidCidr(c) {
      AddressText(c.address);
      AddressIff(PrintAddress(c.address), c.address);
      if s == PrintAddress(c.address) {
        SplitWithout(s, '/');
      }
      if m :| HasMask(s, c, m) {
        SplitWithout(m, '/');
        SplitAt(PrintAddress(c.address), '/', m);
      }
    }
  }

  ghost predicate HasMask(s: string, c: Cidr, m: string) {
    ValidCidr(c) && '/' !in m && s == PrintAddress(c.address) + "/" + m && ParseMask(m) == Some(c.length)
  }

  /** A block of length n has 2^(32 - n) addresses. */
  lemma BlockSizeIsPower(length: int)
    requires 0 <= length <= 32
    ensures BlockSize(length) == Modular.Pow(2, 32 - length)
  {
    PowerIsPow(32 - length);
  }

  lemma {:induction false} PowerIsPow(n: nat)
    ensures Power(n) == Modular.Pow(2, n)
  {
    if n == 0 {
    } else {
      PowerIsPow(n - 1);
    }
  }

  lemma AddressIsNoNumeral(a: int)
    requires 0 <= a < ALL_ADDRESSES
    ensures Decimal.Parse(PrintAddress(a)).None?
  {
    hide Decimal.Print;
    var p := Octets(a);
    JoinFour(p);
    assert PrintAddress(a)[|p[0]|] == '.';
  }

  lemma MaskFits(n: nat)
    requires n <= 32
    ensures 0 <= ALL_ADDRESSES - BlockSize(n) < ALL_ADDRESSES
  {
    hide Power;
    PowerOf32();
    if n > 0 {
      PowerGrows(32 - n, 32);
    }
  }

  /** A mask may be a prefix length in digits, or the netmask of one with dots. */
  lemma MaskForms(n: nat)
    requires n <= 32
    ensures ParseMask(Decimal.Print(n)) == Some(n)
    ensures 0 <= ALL_ADDRESSES - BlockSize(n) < ALL_ADDRESSES
    ensures ParseMask(PrintAddress(ALL_ADDRESSES - BlockSize(n))) == Some(n)
  {
    hide ParseAddress, PrintAddress, BlockSize, Decimal.Print, Decimal.Parse, MaskLength;
    MaskFits(n);
    Decimal.ParsePrint(n);
    var mask := ALL_ADDRESSES - BlockSize(n);
    AddressRoundTrip(mask);
    AddressIsNoNumeral(mask);
    NetmaskLength(n, 32);
  }

  lemma PowerOf32()
    ensures Power(32) == ALL_ADDRESSES
  {
    assert Power(8) == 2 * (2 * (2 * (2 * (2 * (2 * (2 * (2 * Power(0)))))))) == 256;
    assert Power(16) == 256 * Power(8);
    assert Power(24) == 256 * Power(16);
    assert Power(32) == 256 * Power(24);
  }
}
