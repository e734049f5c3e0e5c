/** Base64 (sections 4 and 5 of RFC 4648): the encoder, and the library's decoder with its strict and lenient modes. */
module Base64 {
  import opened Wrappers

  type Byte = x: int | 0 <= x < 256

  datatype Alphabet = Standard | UrlSafe

  function Digit(i: int, alphabet: Alphabet): (c: char)
    requires 0 <= i < 64
    ensures c != '=' && c as int < 128
  {
    if i < 26 then ('A' as int + i) as char
    else if i < 52 then ('a' as int + (i - 26)) as char
    else if i < 62 then ('0' as int + (i - 52)) as char
    else if i == 62 then (if alphabet == Standard then '+' else '-')
    else (if alphabet == Standard then '/' else '_')
  }

  lemma Letters(i: int, upper: string, lower: string)
    requires 0 <= i < 26 && upper == "ABCDEFGHIJKLMNOPQRSTUVWXYZ" && lower == "abcdefghijklmnopqrstuvwxyz"
    ensures upper[i] as int == 'A' as int + i && lower[i] as int == 'a' as int + i
  {
    if i < 13 {
      LettersBefore(i, upper, lower);
    }
  }

  lemma LettersBefore(i: int, upper: string, lower: string)
    requires 0 <= i < 13 && upper == "ABCDEFGHIJKLMNOPQRSTUVWXYZ" && lower == "abcdefghijklmnopqrstuvwxyz"
    ensures upper[i] as int == 'A' as int + i && lower[i] as int == 'a' as int + i
  {
  }

  /** The alphabets of tables 1 and 2 of RFC 4648: capital letters, small letters, figures, and two signs. */
  lemma DigitsAreThoseOfTheTables(i: int)
    ensures 0 <= i < 26 ==> Digit(i, Standard) == Digit(i, UrlSafe) == "ABCDEFGHIJKLMNOPQRSTUVWXYZ"[i]
    ensures 0 <= i < 26 ==> Digit(26 + i, Standard) == Digit(26 + i, UrlSafe) == "abcdefghijklmnopqrstuvwxyz"[i]
    ensures 0 <= i < 10 ==> Digit(52 + i, Standard) == Digit(52 + i, UrlSafe) == "0123456789"[i]
    ensures Digit(62, Standard) == '+' && Digit(63, Standard) == '/' && Digit(62, UrlSafe) == '-' && Digit(63, UrlSafe) == '_'
  {
    if 0 <= i < 26 {
      Letters(i, "ABCDEFGHIJKLMNOPQRSTUVWXYZ", "abcdefghijklmnopqrstuvwxyz");
    }
  }

  /** The URL-safe reader rewrites - and _ first, so it still takes the standard digits too. */
  function DigitValue(c: char, alphabet: Alphabet): (v: Option<int>)
    ensures v.Some? ==> 0 <= v.value < 64
  {
    if 'A' <= c <= 'Z' then Some(c as int - 'A' as int)
    else if 'a' <= c <= 'z' then Some(c as int - 'a' as int + 26)
    else if '0' <= c <= '9' then Some(c as int - '0' as int + 52)
    else if c == '+' || (c == '-' && alphabet == UrlSafe) then Some(62)
    else if c == '/' || (c == '_' && alphabet == UrlSafe) then Some(63)
    else None
  }

  lemma ValueOfDigit(i: int, alphabet: Alphabet)
    requires 0 <= i < 64
    ensures DigitValue(Digit(i, alphabet), alphabet) == Some(i)
  {
  }

  /** The four six-bit groups of three bytes. */
  function Sextets(b0: Byte, b1: Byte, b2: Byte): (s: (int, int, int, int))
    ensures 0 <= s.0 < 64 && 0 <= s.1 < 64 && 0 <= s.2 < 64 && 0 <= s.3 < 64
    ensures s.0 * 4 + s.1 / 16 == b0
    ensures s.1 % 16 * 16 + s.2 / 4 == b1
    ensures s.2 % 4 * 64 + s.3 == b2
  {
    (b0 / 4, b0 % 4 * 16 + b1 / 16, b1 % 16 * 4 + b2 / 64, b2 % 64)
  }

  function Group(b: seq<Byte>, alphabet: Alphabet): string
    requires |b| <= 3
  {
    if b == [] then ""
    else
      var (i, j, k, l) := Sextets(b[0], if |b| > 1 then b[1] else 0, if |b| > 2 then b[2] else 0);
      var x, y, z, w := Digit(i, alphabet), Digit(j, alphabet), Digit(k, alphabet), Digit(l, alphabet);
      if |b| == 1 then [x, y] + "=="
      else if |b| == 2 then [x, y] + ([z] + "=")
      else [x, y, z, w]
  }

  function Encode(b: seq<Byte>, alphabet: Alphabet): string {
    if |b| <= 3 then Group(b, alphabet) else Group(b[..3], alphabet) + Encode(b[3..], alphabet)
  }

  /** Position in the current group of four, bits carried over, padding seen in this group, and padding seen at all. */
  datatype Scan = Scan(quad: int, left: int, pads: int, padded: bool)

  const START := Scan(0, 0, 0, false)

  ghost predicate ValidScan(s: Scan) {
    && 0 <= s.quad < 4
    && 0 <= s.left < (if s.quad == 1 then 64 else if s.quad == 2 then 16 else if s.quad == 3 then 4 else 1)
  }

  function Advance(s: Scan, v: int): (r: (Scan, seq<Byte>))
    requires ValidScan(s) && 0 <= v < 64
    ensures ValidScan(r.0)
  {
    if s.quad == 0 then (Scan(1, v, 0, s.padded), [])
    else if s.quad == 1 then (Scan(2, v % 16, 0, s.padded), [s.left * 4 + v / 16])
    else if s.quad == 2 then (Scan(3, v % 4, 0, s.padded), [s.left * 16 + v / 4])
    else (Scan(0, 0, 0, s.padded), [s.left * 64 + v])
  }

  datatype Malformed = Malformed

  function Prepend(b: seq<Byte>, r: Result<seq<Byte>, Malformed>): Result<seq<Byte>, Malformed> {
    if r.Ok? then Ok(b + r.value) else r
  }

  /**
   * Strict mode refuses foreign characters, misplaced padding and anything after the padding;
   * lenient mode skips foreign characters and stops at complete padding.
   */
  function DecodeFrom(s: string, st: Scan, alphabet: Alphabet, strict: bool): Result<seq<Byte>, Malformed>
    requires ValidScan(st)
    decreases |s|
  {
    if s == "" then (if st.quad == 0 then Ok([]) else Err(Malformed))
    else if s[0] == '=' then
      if strict && st.quad == 0 then Err(Malformed)
      else if st.quad >= 2 && st.quad + st.pads + 1 >= 4 then
        if strict && |s| > 1 then Err(Malformed) else Ok([])
      else DecodeFrom(s[1..], st.(pads := if st.quad >= 2 then st.pads + 1 else st.pads, padded := true), alphabet, strict)
    else
      match DigitValue(s[0], alphabet)
      case None => if strict then Err(Malformed) else DecodeFrom(s[1..], st, alphabet, strict)
      case Some(v) =>
        if strict && st.padded then Err(Malformed)
        else
          var (next, out) := Advance(st, v);
          Prepend(out, DecodeFrom(s[1..], next, alphabet, strict))
  }

  predicate IsAscii(s: string) {
    forall i :: 0 <= i < |s| ==> s[i] as int < 128
  }

  function Decode(s: string, alphabet: Alphabet, strict: bool): Result<seq<Byte>, Malformed> {
    if IsAscii(s) then DecodeFrom(s, START, alphabet, strict) else Err(Malformed)
  }

  // ---- the decoder undoes the encoder

  /** c is a digit that reads as v. */
  ghost predicate Reads(c: char, v: int, alphabet: Alphabet) {
    c != '=' && 0 <= v < 64 && DigitValue(c, alphabet) == Some(v)
  }

  lemma DigitReads(i: int, alphabet: Alphabet)
    requires 0 <= i < 64
    ensures Reads(Digit(i, alphabet), i, alphabet)
  {
    ValueOfDigit(i, alphabet);
  }

  lemma DecodeDigit(c: char, v: int, rest: string, st: Scan, alphabet: Alphabet, strict: bool)
    requires Reads(c, v, alphabet) && ValidScan(st) && !st.padded
    ensures DecodeFrom([c] + rest, st, alphabet, strict)
         == Prepend(Advance(st, v).1, DecodeFrom(rest, Advance(st, v).0, alphabet, strict))
  {
    assert ([c] + rest)[1..] == rest;
  }

  lemma PrependTwice(a: seq<Byte>, b: seq<Byte>, r: Result<seq<Byte>, Malformed>)
    ensures Prepend(a, Prepend(b, r)) == Prepend(a + b, r)
  {
    if r.Ok? {
      assert a + (b + r.value) == (a + b) + r.value;
    }
  }

  lemma DecodePair(x: char, y: char, i: int, j: int, rest: string, alphabet: Alphabet, strict: bool)
    requires Reads(x, i, alphabet) && Reads(y, j, alphabet)
    ensures DecodeFrom([x, y] + rest, START, alphabet, strict)
         == Prepend([i * 4 + j / 16], DecodeFrom(rest, Scan(2, j % 16, 0, false), alphabet, strict))
  {
    hide Reads;
    assert [x, y] + rest == [x] + ([y] + rest);
    DecodeDigit(x, i, [y] + rest, START, alphabet, strict);
    DecodeDigit(y, j, rest, Scan(1, i, 0, false), alphabet, strict);
    assert [] + [i * 4 + j / 16] == [i * 4 + j / 16];
    PrependTwice([], [i * 4 + j / 16], DecodeFrom(rest, Scan(2, j % 16, 0, false), alphabet, strict));
  }

  /** The digits of a group read as its six-bit values. */
  lemma GroupDigits(b: seq<Byte>, alphabet: Alphabet) returns (x: char, y: char, z: char, w: char)
    requires 1 <= |b| <= 3
    ensures Group(b, alphabet)
         == if |b| == 1 then [x, y] + "==" else if |b| == 2 then [x, y] + ([z] + "=") else [x, y, z, w]
    ensures var s := Sextets(b[0], if |b| > 1 then b[1] else 0, if |b| > 2 then b[2] else 0);
            Reads(x, s.0, alphabet) && Reads(y, s.1, alphabet) && Reads(z, s.2, alphabet) && Reads(w, s.3, alphabet)
  {
    var s := Sextets(b[0], if |b| > 1 then b[1] else 0, if |b| > 2 then b[2] else 0);
    x, y, z, w := Digit(s.0, alphabet), Digit(s.1, alphabet), Digit(s.2, alphabet), Digit(s.3, alphabet);
    DigitReads(s.0, alphabet);
    DigitReads(s.1, alphabet);
    DigitReads(s.2, alphabet);
    DigitReads(s.3, alphabet);
  }

  lemma DecodeTriple(x: char, y: char, z: char, i: int, j: int, k: int, rest: string, alphabet: Alphabet, strict: bool)
    requires Reads(x, i, alphabet) && Reads(y, j, alphabet) && Reads(z, k, alphabet)
    ensures DecodeFrom([x, y] + ([z] + rest), START, alphabet, strict)
         == Prepend([i * 4 + j / 16, j % 16 * 16 + k / 4], DecodeFrom(rest, Scan(3, k % 4, 0, false), alphabet, strict))
  {
    var a: Byte, b: Byte := i * 4 + j / 16, j % 16 * 16 + k / 4;
    hide Reads;
    DecodePair(x, y, i, j, [z] + rest, alphabet, strict);
    DecodeDigit(z, k, rest, Scan(2, j % 16, 0, false), alphabet, strict);
    PrependTwice([a], [b], DecodeFrom(rest, Scan(3, k % 4, 0, false), alphabet, strict));
    assert [a] + [b] == [a, b];
  }

  lemma DecodeGroup(b: seq<Byte>, rest: string, alphabet: Alphabet, strict: bool)
    requires |b| == 3
    ensures DecodeFrom(Group(b, alphabet) + rest, START, alphabet, strict)
         == Prepend(b, DecodeFrom(rest, START, alphabet, strict))
  {
    var x, y, z, w := GroupDigits(b, alphabet);
    var (i, j, k, l) := Sextets(b[0], b[1], b[2]);
    hide Sextets, Reads, Group;
    assert [x, y, z, w] + rest == [x, y] + ([z] + ([w] + rest));
    DecodeTriple(x, y, z, i, j, k, [w] + rest, alphabet, strict);
    DecodeDigit(w, l, rest, Scan(3, k % 4, 0, false), alphabet, strict);
    PrependTwice([b[0], b[1]], [b[2]], DecodeFrom(rest, START, alphabet, strict));
    assert [b[0], b[1]] + [b[2]] == b;
  }

  lemma DecodeOne(x: char, y: char, i: int, j: int, alphabet: Alphabet, strict: bool)
    requires Reads(x, i, alphabet) && Reads(y, j, alphabet)
    ensures DecodeFrom([x, y] + "==", START, alphabet, strict) == Ok([i * 4 + j / 16])
  {
    DecodePair(x, y, i, j, "==", alphabet, strict);
    assert "=="[1..] == "=";
    assert [i * 4 + j / 16] + [] == [i * 4 + j / 16];
  }

  lemma DecodeTwo(x: char, y: char, z: char, i: int, j: int, k: int, alphabet: Alphabet, strict: bool)
    requires Reads(x, i, alphabet) && Reads(y, j, alphabet) && Reads(z, k, alphabet)
    ensures DecodeFrom([x, y] + ([z] + "="), START, alphabet, strict) == Ok([i * 4 + j / 16, j % 16 * 16 + k / 4])
  {
    DecodeTriple(x, y, z, i, j, k, "=", alphabet, strict);
    assert [i * 4 + j / 16, j % 16 * 16 + k / 4] + [] == [i * 4 + j / 16, j % 16 * 16 + k / 4];
  }

  lemma DecodeFullGroup(b: seq<Byte>, alphabet: Alphabet, strict: bool)
    requires |b| == 3
    ensures DecodeFrom(Group(b, alphabet), START, alphabet, strict) == Ok(b)
  {
    DecodeGroup(b, "", alphabet, strict);
    assert Group(b, alphabet) + "" == Group(b, alphabet);
    assert b + [] == b;
  }

  lemma DecodeLastGroup(b: seq<Byte>, alphabet: Alphabet, strict: bool)
    requires |b| <= 3
    ensures DecodeFrom(Group(b, alphabet), START, alphabet, strict) == Ok(b)
  {
    if |b| == 3 {
      DecodeFullGroup(b, alphabet, strict);
    } else if |b| == 2 {
      var x, y, z, w := GroupDigits(b, alphabet);
      var s := Sextets(b[0], b[1], 0);
      hide Sextets, Reads, Group;
      DecodeTwo(x, y, z, s.0, s.1, s.2, alphabet, strict);
      assert b == [b[0], b[1]];
    } else if |b| == 1 {
      var x, y, z, w := GroupDigits(b, alphabet);
      var s := Sextets(b[0], 0, 0);
      hide Sextets, Reads, Group;
      DecodeOne(x, y, s.0, s.1, alphabet, strict);
      assert b == [b[0]];
    }
  }

  lemma {:induction false} DecodeFromEncode(b: seq<Byte>, alphabet: Alphabet, strict: bool)
    ensures DecodeFrom(Encode(b, alphabet), START, alphabet, strict) == Ok(b)
  {
    hide Group;
    if |b| <= 3 {
      DecodeLastGroup(b, alphabet, strict);
    } else {
      DecodeFromEncode(b[3..], alphabet, strict);
      DecodeGroup(b[..3], Encode(b[3..], alphabet), alphabet, strict);
      assert b[..3] + b[3..] == b;
    }
  }

  lemma GroupShape(b: seq<Byte>, alphabet: Alphabet)
    requires |b| <= 3
    ensures |Group(b, alphabet)| == (if b == [] then 0 else 4) && IsAscii(Group(b, alphabet))
  {
    hide Sextets, Digit;
  }

  lemma {:induction false} EncodeShape(b: seq<Byte>, alphabet: Alphabet)
    ensures |Encode(b, alphabet)| == (|b| + 2) / 3 * 4
    ensures IsAscii(Encode(b, alphabet))
  {
    hide Group;
    if |b| <= 3 {
      GroupShape(b, alphabet);
    } else {
      GroupShape(b[..3], alphabet);
      EncodeShape(b[3..], alphabet);
    }
  }

  /** Decoding undoes encoding, in both modes and both alphabets. */
  lemma DecodeEncode(b: seq<Byte>, alphabet: Alphabet, strict: bool)
    ensures Decode(Encode(b, alphabet), alphabet, strict) == Ok(b)
  {
    EncodeShape(b, alphabet);
    DecodeFromEncode(b, alphabet, strict);
  }

  // ---- text without padding (section 2 of RFC 7515)

  function TrimPadding(s: string): string {
    if s != "" && s[|s| - 1] == '=' then TrimPadding(s[..|s| - 1]) else s
  }

  function Pads(n: nat): string {
    if n == 0 then "" else Pads(n - 1) + "="
  }

  /** -len % 4 pads, as the token reader appends before decoding. */
  function AddPadding(s: string): string {
    s + Pads((4 - |s| % 4) % 4)
  }

  lemma {:induction false} TrimAfterDigits(s: string, t: string)
    requires s != "" && s[|s| - 1] != '=' && (t == "" || t == "=" || t == "==")
    ensures TrimPadding(s + t) == s
  {
    if t == "" {
      assert s + t == s;
    } else {
      var u := s + t;
      assert u[..|u| - 1] == s + t[..|t| - 1];
      assert t == "==" ==> t[..1] == "=";
      assert t == "=" ==> t[..0] == "";
      TrimAfterDigits(s, t[..|t| - 1]);
    }
  }

  lemma PadsShort()
    ensures Pads(0) == "" && Pads(1) == "=" && Pads(2) == "=="
  {
    assert Pads(2) == Pads(1) + "=" && Pads(1) == Pads(0) + "=";
  }

  /** A text of digits only. */
  ghost predicate AllDigits(s: string, alphabet: Alphabet) {
    forall i :: 0 <= i < |s| ==> s[i] != '=' && DigitValue(s[i], alphabet).Some?
  }

  lemma SplitGroup(b: seq<Byte>, alphabet: Alphabet) returns (s: string, t: string)
    requires |b| <= 3
    ensures Group(b, alphabet) == s + t && AllDigits(s, alphabet)
    ensures |s| == (if b == [] then 0 else |b| + 1)
    ensures t == (if |b| == 1 then "==" else if |b| == 2 then "=" else "")
  {
    if b == [] {
      s, t := "", "";
    } else {
      var x, y, z, w := GroupDigits(b, alphabet);
      hide Sextets, Group, Reads, DigitValue;
      if |b| == 1 {
        s, t := [x, y], "==";
      } else if |b| == 2 {
        s, t := [x, y, z], "=";
        assert [x, y] + ([z] + t) == s + t;
      } else {
        s, t := [x, y, z, w], "";
        assert s + t == s;
      }
    }
  }

  /** An encoding is digits followed by exactly the padding that completes a group of four. */
  lemma {:induction false} SplitEncoding(b: seq<Byte>, alphabet: Alphabet) returns (s: string, t: string)
    ensures Encode(b, alphabet) == s + t && AllDigits(s, alphabet)
    ensures t == Pads((4 - |s| % 4) % 4) && (t == "" || t == "=" || t == "==")
    ensures s == "" ==> t == ""
  {
    hide Group, DigitValue;
    PadsShort();
    if |b| <= 3 {
      s, t := SplitGroup(b, alphabet);
    } else {
      var g, none := SplitGroup(b[..3], alphabet);
      var s', t' := SplitEncoding(b[3..], alphabet);
      s, t := g + s', t';
      assert (g + none) + (s' + t') == s + t;
    }
  }

  /** Removing the padding and adding it back is the identity on encodings. */
  lemma PaddingRestored(b: seq<Byte>, alphabet: Alphabet)
    ensures AddPadding(TrimPadding(Encode(b, alphabet))) == Encode(b, alphabet)
    ensures AllDigits(TrimPadding(Encode(b, alphabet)), alphabet)
  {
    hide Digit, DigitValue, Sextets;
    var s, t := SplitEncoding(b, alphabet);
    if s != "" {
      assert s[|s| - 1] != '=';
      TrimAfterDigits(s, t);
    }
  }

  /** What strict decoding accepts consists of digits and padding only. */
  lemma {:induction false} StrictCharacters(s: string, st: Scan, i: nat)
    requires ValidScan(st) && DecodeFrom(s, st, Standard, true).Ok? && i < |s|
    ensures s[i] == '=' || DigitValue(s[i], Standard).Some?
    decreases |s|
  {
    if i == 0 {
    } else {
      if s[0] == '=' {
        StrictCharacters(s[1..], st.(pads := if st.quad >= 2 then st.pads + 1 else st.pads, padded := true), i - 1);
      } else {
        StrictCharacters(s[1..], Advance(st, DigitValue(s[0], Standard).value).0, i - 1);
      }
    }
  }

  lemma {:induction false} PaddedOneFails(s: string, st: Scan)
    requires ValidScan(st) && st.quad == 1 && st.padded
    ensures DecodeFrom(s, st, Standard, true).Err?
    decreases |s|
  {
    if s != "" && s[0] == '=' {
      PaddedOneFails(s[1..], st.(padded := true));
    }
  }

  /** What strict mode accepts comes in groups of four. */
  lemma {:induction false} StrictGroups(s: string, st: Scan)
    requires ValidScan(st) && DecodeFrom(s, st, Standard, true).Ok? && 0 <= st.pads < 4
    requires (st.pads > 0 ==> st.padded) && (st.padded ==> st.quad >= 2 && st.quad + st.pads < 4)
    ensures (st.quad + st.pads + |s|) % 4 == 0
    decreases |s|
  {
    if s == "" {
      assert st.quad == 0;
    } else if s[0] == '=' {
      var next := st.(pads := if st.quad >= 2 then st.pads + 1 else st.pads, padded := true);
      if st.quad == 1 {
        PaddedOneFails(s[1..], next);
      } else if st.quad + st.pads + 1 < 4 {
        StrictGroups(s[1..], next);
      } else {
        PadsComplete(st, |s|);
      }
    } else {
      StrictGroups(s[1..], Advance(st, DigitValue(s[0], Standard).value).0);
    }
  }

  lemma PadsComplete(st: Scan, length: nat)
    requires 2 <= st.quad < 4 && st.quad + st.pads + 1 == 4 && length == 1
    ensures (st.quad + st.pads + length) % 4 == 0
  {
  }

  /** A key text that is accepted has a multiple of four characters, all of the standard alphabet or padding. */
  lemma StrictShape(s: string)
    requires Decode(s, Standard, true).Ok?
    ensures |s| % 4 == 0 && forall i :: 0 <= i < |s| ==> s[i] == '=' || DigitValue(s[i], Standard).Some?
  {
    StrictGroups(s, START);
    forall i | 0 <= i < |s| ensures s[i] == '=' || DigitValue(s[i], Standard).Some? {
      StrictCharacters(s, START, i);
    }
  }
}
