/** Delimiter splitting, decimal numbers of bounded width, and unpadded base64. */
module TextCodec {
  import opened Common

  type Byte = x: int | 0 <= x < 256

  // ---------- strings.Split ----------

  function Split(s: string, sep: char): (parts: seq<string>)
    ensures |parts| >= 1
  {
    if s == [] then [[]]
    else
      var rest := Split(s[1..], sep);
      if s[0] == sep then [[]] + rest else [[s[0]] + rest[0]] + rest[1..]
  }

  function Join(parts: seq<string>, sep: char): string
    requires |parts| >= 1
  {
    if |parts| == 1 then parts[0] else parts[0] + [sep] + Join(parts[1..], sep)
  }

  lemma {:induction false} SplitFirst(a: string, b: string, sep: char)
    requires sep !in a
    ensures Split(a + [sep] + b, sep) == [a] + Split(b, sep)
  {
    if a == [] {
      assert (a + [sep] + b)[1..] == b;
    } else {
      SplitFirst(a[1..], b, sep);
      assert (a + [sep] + b)[1..] == a[1..] + [sep] + b;
      assert [a[0]] + a[1..] == a;
    }
  }

  lemma {:induction false} SplitWhole(a: string, sep: char)
    requires sep !in a
    ensures Split(a, sep) == [a]
  {
    if a != [] {
      SplitWhole(a[1..], sep);
      assert [a[0]] + a[1..] == a;
    }
  }

  lemma {:induction false} SplitClean(parts: seq<string>, sep: char)
    requires |parts| >= 1 && forall i :: 0 <= i < |parts| ==> sep !in parts[i]
    ensures Split(Join(parts, sep), sep) == parts
  {
    if |parts| == 1 {
      SplitWhole(parts[0], sep);
    } else {
      SplitClean(parts[1..], sep);
      SplitFirst(parts[0], Join(parts[1..], sep), sep);
    }
  }

  /** Joining undoes splitting, and no part has the separator in it. */
  lemma {:induction false} JoinSplit(s: string, sep: char)
    ensures Join(Split(s, sep), sep) == s
    ensures forall i :: 0 <= i < |Split(s, sep)| ==> sep !in Split(s, sep)[i]
  {
    if s != [] {
      JoinSplit(s[1..], sep);
      var rest := Split(s[1..], sep);
      var parts := Split(s, sep);
      if s[0] == sep {
        assert parts[1..] == rest;
      } else {
        assert parts[1..] == rest[1..];
        if |rest| > 1 {
          assert [s[0]] + rest[0] + [sep] + Join(rest[1..], sep) == [s[0]] + (rest[0] + [sep] + Join(rest[1..], sep));
        }
      }
    }
  }

  /** Splitting undoes joining exactly when no part contains the separator. */
  lemma SplitJoin(parts: seq<string>, sep: char)
    requires |parts| >= 1
    ensures Split(Join(parts, sep), sep) == parts <==> forall i :: 0 <= i < |parts| ==> sep !in parts[i]
  {
    if forall i :: 0 <= i < |parts| ==> sep !in parts[i] {
      SplitClean(parts, sep);
    } else {
      JoinSplit(Join(parts, sep), sep);
    }
  }

  // ---------- Decimal ----------

  predicate IsDigit(ch: char) {
    '0' <= ch <= '9'
  }

  function Digit(d: nat): char
    requires d < 10
  {
    '0' + d as char
  }

  function DigitValue(ch: char): nat
    requires IsDigit(ch)
  {
    ch as int - '0' as int
  }

  /** `%d` */
  function PrintUint(n: nat): (s: string)
    ensures |s| >= 1 && forall i :: 0 <= i < |s| ==> IsDigit(s[i])
  {
    if n < 10 then [Digit(n)] else PrintUint(n / 10) + [Digit(n % 10)]
  }

  function DigitsValue(s: string): nat
    requires forall i :: 0 <= i < |s| ==> IsDigit(s[i])
  {
    if s == [] then 0 else 10 * DigitsValue(s[..|s| - 1]) + DigitValue(s[|s| - 1])
  }

  /** `strconv.ParseUint(s, 10, bits)`: one or more digits, leading zeros included, below 2^bits. */
  function ParseUint(s: string, bits: nat): Option<nat> {
    if s != [] && (forall i :: 0 <= i < |s| ==> IsDigit(s[i])) && DigitsValue(s) < Pow(2, bits)
    then Some(DigitsValue(s)) else None
  }

  lemma {:induction false} PrintValue(n: nat)
    ensures DigitsValue(PrintUint(n)) == n
  {
    if n < 10 {
      assert PrintUint(n)[..0] == [];
    } else {
      PrintValue(n / 10);
      assert PrintUint(n)[..|PrintUint(n)| - 1] == PrintUint(n / 10);
    }
  }

  predicate NoLeadingZero(s: string) {
    |s| == 1 || (|s| > 1 && s[0] != '0')
  }

  lemma {:induction false} PrintedLead(n: nat)
    ensures NoLeadingZero(PrintUint(n)) && (n > 0 ==> PrintUint(n)[0] != '0')
  {
    if n >= 10 {
      PrintedLead(n / 10);
    }
  }

  lemma {:induction false} LeadPositive(s: string)
    requires s != [] && (forall i :: 0 <= i < |s| ==> IsDigit(s[i])) && s[0] != '0'
    ensures DigitsValue(s) > 0
  {
    if |s| > 1 {
      LeadPositive(s[..|s| - 1]);
    }
  }

  /** A decimal text is the one printed for its value exactly when it has no leading zero. */
  lemma {:induction false} DigitsPrintBackExactly(s: string)
    requires s != [] && forall i :: 0 <= i < |s| ==> IsDigit(s[i])
    ensures PrintUint(DigitsValue(s)) == s <==> NoLeadingZero(s)
  {
    PrintedLead(DigitsValue(s));
    if NoLeadingZero(s) {
      PrintUnparsed(s);
    }
  }

  lemma {:induction false} PrintUnparsed(s: string)
    requires NoLeadingZero(s) && forall i :: 0 <= i < |s| ==> IsDigit(s[i])
    ensures PrintUint(DigitsValue(s)) == s
  {
    var front, last := s[..|s| - 1], s[|s| - 1];
    assert s == front + [last];
    if front != [] {
      LeadPositive(front);
      PrintUnparsed(front);
      assert DigitsValue(s) / 10 == DigitsValue(front) && DigitsValue(s) % 10 == DigitValue(last);
    }
  }

  /** A printed number parses back exactly when it fits the width. */
  lemma ParsePrinted(n: nat, bits: nat)
    ensures ParseUint(PrintUint(n), bits) == if n < Pow(2, bits) then Some(n) else None
  {
    PrintValue(n);
  }

  // ---------- Base64, standard alphabet, no padding (sections 3.2 and 4 of RFC 4648) ----------

  function Char64(d: nat): char
    requires d < 64
  {
    if d < 26 then 'A' + d as char
    else if d < 52 then 'a' + (d - 26) as char
    else if d < 62 then '0' + (d - 52) as char
    else if d == 62 then '+' else '/'
  }

  function Value64(ch: char): Option<nat> {
    if 'A' <= ch <= 'Z' then Some(ch as int - 'A' as int)
    else if 'a' <= ch <= 'z' then Some(ch as int - 'a' as int + 26)
    else if '0' <= ch <= '9' then Some(ch as int - '0' as int + 52)
    else if ch == '+' then Some(62)
    else if ch == '/' then Some(63)
    else None
  }

  type Sextet = x: int | 0 <= x < 64

  /** Three bytes as four digits. */
  function Four(x: Byte, y: Byte, z: Byte): (d: seq<Sextet>)
    ensures |d| == 4
  {
    [x / 4, DigitOf(x % 4, 16, y, 16), DigitOf(y % 16, 4, z, 64), z % 64]
  }

  /** The low bits of one byte followed by the high bits of the next. */
  function DigitOf(low: int, shift: int, next: int, drop: int): int
    requires drop > 0
  {
    low * shift + next / drop
  }

  /** A last group of fewer than three bytes, filled with zero bits. */
  function ShortDigits(b: seq<Byte>): (d: seq<Sextet>)
    requires |b| < 3
    ensures |d| == if b == [] then 0 else |b| + 1
  {
    if |b| == 0 then []
    else if |b| == 1 then [b[0] / 4, b[0] % 4 * 16]
    else [b[0] / 4, DigitOf(b[0] % 4, 16, b[1], 16), b[1] % 16 * 4]
  }

  function Sextets(b: seq<Byte>): seq<Sextet> {
    if |b| < 3 then ShortDigits(b) else Four(b[0], b[1], b[2]) + Sextets(b[3..])
  }

  function Spell(d: seq<Sextet>): (s: string)
    ensures |s| == |d| && forall i :: 0 <= i < |d| ==> s[i] == Char64(d[i])
  {
    seq(|d|, i requires 0 <= i < |d| => Char64(d[i]))
  }

  /** `RawStdEncoding.EncodeToString` */
  function Encode64(b: seq<Byte>): string {
    Spell(Sextets(b))
  }

  predicate AllSpelled(s: string) {
    forall i :: 0 <= i < |s| ==> Value64(s[i]).Some?
  }

  function Digits64(s: string): (d: seq<Sextet>)
    requires AllSpelled(s)
    ensures |d| == |s| && forall i :: 0 <= i < |s| ==> Value64(s[i]) == Some(d[i])
  {
    seq(|s|, i requires 0 <= i < |s| => Value64(s[i]).value)
  }

  /** `high * shift + low / drop` */
  function ByteOf(high: int, shift: int, low: int, drop: int): int
    requires drop > 0
  {
    high * shift + low / drop
  }

  /** Four digits as three bytes. */
  function Three(a: Sextet, b: Sextet, c: Sextet, d: Sextet): (r: seq<Byte>)
    ensures |r| == 3
  {
    [ByteOf(a, 4, b, 16), ByteOf(b % 16, 16, c, 4), ByteOf(c % 4, 64, d, 1)]
  }

  /** A last group of two or three digits; its unused low bits are ignored. */
  function ShortBytes(d: seq<Sextet>): (b: seq<Byte>)
    requires |d| < 4 && |d| != 1
    ensures |b| == if d == [] then 0 else |d| - 1
  {
    if |d| == 0 then []
    else if |d| == 2 then [ByteOf(d[0], 4, d[1], 16)]
    else [ByteOf(d[0], 4, d[1], 16), ByteOf(d[1] % 16, 16, d[2], 4)]
  }

  function Bytes(d: seq<Sextet>): seq<Byte>
    requires |d| % 4 != 1
  {
    if |d| < 4 then ShortBytes(d) else Three(d[0], d[1], d[2], d[3]) + Bytes(d[4..])
  }

  /** A value cut at `cut` and refilled with a neighbour's high part comes apart again. */
  lemma Packed4(x: Byte, y: Byte)
    ensures (x % 4 * 16 + y / 16) / 16 == x % 4 && (x % 4 * 16 + y / 16) % 16 == y / 16
    ensures x % 4 * 16 / 16 == x % 4
  {
  }

  lemma Packed16(y: Byte, z: Byte)
    ensures (y % 16 * 4 + z / 64) / 4 == y % 16 && (y % 16 * 4 + z / 64) % 4 == z / 64
    ensures y % 16 * 4 / 4 == y % 16
  {
  }

  lemma FirstByte(x: Byte, y: Byte)
    ensures ByteOf(x / 4, 4, DigitOf(x % 4, 16, y, 16), 16) == x
  {
    Packed4(x, y);
  }

  lemma SecondByte(x: Byte, y: Byte, z: Byte)
    ensures ByteOf(DigitOf(x % 4, 16, y, 16) % 16, 16, DigitOf(y % 16, 4, z, 64), 4) == y
  {
    Packed4(x, y);
    Packed16(y, z);
  }

  lemma ThirdByte(y: Byte, z: Byte)
    ensures ByteOf(DigitOf(y % 16, 4, z, 64) % 4, 64, z % 64, 1) == z
  {
    Packed16(y, z);
  }

  lemma GroupInverse(x: Byte, y: Byte, z: Byte)
    ensures var d := Four(x, y, z); Three(d[0], d[1], d[2], d[3]) == [x, y, z]
  {
    hide ByteOf, DigitOf;
    FirstByte(x, y);
    SecondByte(x, y, z);
    ThirdByte(y, z);
  }

  lemma Unpacked(a: Sextet, b: Sextet, c: Sextet, d: Sextet)
    ensures var x, y, z := ByteOf(a, 4, b, 16), ByteOf(b % 16, 16, c, 4), ByteOf(c % 4, 64, d, 1);
            && x / 4 == a && x % 4 == b / 16 && y / 16 == b % 16 && y % 16 == c / 4 && z / 64 == c % 4 && z % 64 == d
            && x % 4 * 16 + y / 16 == b && y % 16 * 4 + z / 64 == c
            && (x % 4 * 16 == b <==> b % 16 == 0) && (y % 16 * 4 == c <==> c % 4 == 0)
  {
  }

  lemma DigitsInverse(a: Sextet, b: Sextet, c: Sextet, d: Sextet)
    ensures var r := Three(a, b, c, d); Four(r[0], r[1], r[2]) == [a, b, c, d]
  {
    Unpacked(a, b, c, d);
  }

  lemma OneByteInverse(x: Byte)
    ensures ShortBytes(ShortDigits([x])) == [x]
  {
    Packed4(x, 0);
    assert ShortDigits([x]) == [x / 4, x % 4 * 16];
    assert ByteOf(x / 4, 4, x % 4 * 16, 16) == x;
  }

  lemma LastByte(x: Byte, y: Byte)
    ensures ByteOf(DigitOf(x % 4, 16, y, 16) % 16, 16, y % 16 * 4, 4) == y
  {
    Packed4(x, y);
    Packed16(y, 0);
  }

  lemma TwoBytesInverse(x: Byte, y: Byte)
    ensures ShortBytes(ShortDigits([x, y])) == [x, y]
  {
    hide ByteOf, DigitOf;
    FirstByte(x, y);
    LastByte(x, y);
    assert ShortDigits([x, y]) == [x / 4, DigitOf(x % 4, 16, y, 16), y % 16 * 4];
  }

  lemma ShortInverse(b: seq<Byte>)
    requires |b| < 3
    ensures ShortBytes(ShortDigits(b)) == b
  {
    if |b| == 0 {
      assert b == [];
    } else if |b| == 1 {
      OneByteInverse(b[0]);
      assert b == [b[0]];
    } else {
      TwoBytesInverse(b[0], b[1]);
      assert b == [b[0], b[1]];
    }
  }

  lemma TwoDigitsInverse(a: Sextet, b: Sextet)
    ensures ShortDigits(ShortBytes([a, b])) == [a, b] <==> b % 16 == 0
  {
    Unpacked(a, b, 0, 0);
    var x: Byte := ByteOf(a, 4, b, 16);
    assert ShortDigits([x]) == [a, x % 4 * 16];
    assert [a, x % 4 * 16][1] == b <==> b % 16 == 0;
  }

  lemma ThreeDigitsInverse(a: Sextet, b: Sextet, c: Sextet)
    ensures ShortDigits(ShortBytes([a, b, c])) == [a, b, c] <==> c % 4 == 0
  {
    Unpacked(a, b, c, 0);
    var x: Byte, y: Byte := ByteOf(a, 4, b, 16), ByteOf(b % 16, 16, c, 4);
    assert ShortDigits([x, y]) == [a, b, y % 16 * 4];
    assert [a, b, y % 16 * 4][2] == c <==> c % 4 == 0;
  }

  lemma ShortDigitsInverse(d: seq<Sextet>)
    requires |d| < 4 && |d| != 1
    ensures ShortDigits(ShortBytes(d)) == d <==> TailClear(d)
  {
    hide ShortDigits, ShortBytes;
    if |d| == 2 {
      TwoDigitsInverse(d[0], d[1]);
      assert d == [d[0], d[1]];
    } else if |d| == 3 {
      ThreeDigitsInverse(d[0], d[1], d[2]);
      assert d == [d[0], d[1], d[2]];
    } else {
      NoDigits();
    }
  }

  lemma NoDigits()
    ensures ShortDigits(ShortBytes([])) == []
  {
  }

  predicate IsNewline(ch: char) {
    ch == '\r' || ch == '\n'
  }

  predicate NoNewline(s: string) {
    forall i :: 0 <= i < |s| ==> !IsNewline(s[i])
  }

  function Strip(s: string): string {
    if s == [] then [] else (if IsNewline(s[0]) then [] else [s[0]]) + Strip(s[1..])
  }

  /** `RawStdEncoding.DecodeString`: newlines are skipped; a foreign character or a lone last digit is an error. */
  function Decode64(s: string): Option<seq<Byte>> {
    var t := Strip(s);
    if AllSpelled(t) && |t| % 4 != 1 then Some(Bytes(Digits64(t))) else None
  }

  lemma {:induction false} StripClean(s: string)
    requires NoNewline(s)
    ensures Strip(s) == s
  {
    if s != [] {
      StripClean(s[1..]);
      assert [s[0]] + s[1..] == s;
    }
  }

  lemma EncodedClean(b: seq<Byte>)
    ensures AllSpelled(Encode64(b)) && NoNewline(Encode64(b)) && Digits64(Encode64(b)) == Sextets(b)
  {
  }

  lemma SameResidue(n: nat)
    requires n >= 4
    ensures (n - 4) % 4 == n % 4
  {
  }

  lemma {:induction false} SextetsLength(b: seq<Byte>)
    ensures |Sextets(b)| % 4 != 1
  {
    hide Four, ShortDigits;
    if |b| >= 3 {
      SextetsLength(b[3..]);
      SameResidue(|Sextets(b)|);
    }
  }

  lemma {:induction false} SextetsRoundTrip(b: seq<Byte>)
    ensures |Sextets(b)| % 4 != 1 && Bytes(Sextets(b)) == b
  {
    hide Four, Three, ShortDigits, ShortBytes;
    SextetsLength(b);
    if |b| < 3 {
      ShortInverse(b);
    } else {
      SextetsRoundTrip(b[3..]);
      GroupInverse(b[0], b[1], b[2]);
      assert Sextets(b)[4..] == Sextets(b[3..]);
      assert b == [b[0], b[1], b[2]] + b[3..];
    }
  }

  /** Decoding undoes encoding for every byte string. */
  lemma DecodeEncoded(b: seq<Byte>)
    ensures Decode64(Encode64(b)) == Some(b)
  {
    EncodedClean(b);
    StripClean(Encode64(b));
    SextetsRoundTrip(b);
  }

  /** The bits of a short last group that carry no data are zero. */
  predicate TailClear(d: seq<Sextet>) {
    && (|d| % 4 == 2 ==> d[|d| - 1] % 16 == 0)
    && (|d| % 4 == 3 ==> d[|d| - 1] % 4 == 0)
  }

  lemma TailOfRest(d: seq<Sextet>)
    requires |d| >= 4 && |d| % 4 != 1
    ensures TailClear(d[4..]) <==> TailClear(d)
  {
    var n, rest := |d|, d[4..];
    SameResidue(n);
    assert n > 4 ==> rest[n - 5] == d[n - 1];
  }

  lemma {:induction false} BytesRoundTrip(d: seq<Sextet>)
    requires |d| % 4 != 1
    ensures Sextets(Bytes(d)) == d <==> TailClear(d)
  {
    hide Four, Three, ShortDigits, ShortBytes, TailClear;
    if |d| < 4 {
      ShortDigitsInverse(d);
    } else {
      var rest := d[4..];
      BytesRoundTrip(rest);
      TailOfRest(d);
      DigitsInverse(d[0], d[1], d[2], d[3]);
      assert Bytes(d)[3..] == Bytes(rest);
      assert Sextets(Bytes(d)) == d[..4] + Sextets(Bytes(rest));
      assert d == d[..4] + rest;
    }
  }

  /**
   Which accepted texts are the encoding of what they decode to: those without newlines and with clear tail bits.
   Every other accepted text is a second spelling of the same bytes.
   */
  lemma EncodeDecodedExactly(s: string)
    requires Decode64(s).Some?
    ensures Encode64(Decode64(s).value) == s <==> NoNewline(s) && TailClear(Digits64(Strip(s)))
  {
    var b := Decode64(s).value;
    EncodedClean(b);
    if NoNewline(s) {
      StripClean(s);
      BytesRoundTrip(Digits64(s));
      SpellDigits(s);
    }
  }

  lemma SpellDigits(s: string)
    requires AllSpelled(s)
    ensures Spell(Digits64(s)) == s
    ensures forall d: seq<Sextet> :: Spell(d) == s ==> d == Digits64(s)
  {
  }
}
