/**
 The hash text in plain terms: the alphabet spelled out, digits as numbers, which base64 texts are accepted, and what a
 generated text reads like.
 */
module HashText {
  import opened Common
  import opened TextCodec
  import opened PasswordHash

  // ---------- Base64 ----------

  /** Table 1 of RFC 4648. */
  const UPPER := "ABCDEFGHIJKLMNOPQRSTUVWXYZ"
  const LOWER := "abcdefghijklmnopqrstuvwxyz"
  const REST := "0123456789+/"
  const ALPHABET := UPPER + LOWER + REST

  lemma UpperLetter(i: nat)
    requires i < 26
    ensures |UPPER| == 26 && UPPER[i] == 'A' + i as char
  {
  }

  lemma LowerLetter(i: nat)
    requires i < 26
    ensures |LOWER| == 26 && LOWER[i] == 'a' + i as char
  {
  }

  lemma RestCharacter(i: nat)
    requires i < 12
    ensures |REST| == 12 && REST[i] == if i < 10 then '0' + i as char else if i == 10 then '+' else '/'
  {
  }

  lemma CharAt(d: nat)
    requires d < 64
    ensures |ALPHABET| == 64 && Char64(d) == ALPHABET[d]
  {
    hide UPPER, LOWER, REST;
    UpperLetter(if d < 26 then d else 0);
    LowerLetter(if 26 <= d < 52 then d - 26 else 0);
    RestCharacter(if 52 <= d then d - 52 else 0);
  }

  /** A character has a value exactly if it is in the table, and the value is its index there. */
  lemma ValueAt(ch: char)
    ensures Value64(ch).Some? <==> ch in ALPHABET
    ensures Value64(ch).Some? ==> Value64(ch).value < |ALPHABET| && ALPHABET[Value64(ch).value] == ch
  {
    hide ALPHABET;
    if Value64(ch).Some? {
      CharAt(Value64(ch).value);
    } else if ch in ALPHABET {
      CharAt(0);
      var i :| 0 <= i < |ALPHABET| && ALPHABET[i] == ch;
      CharAt(i);
    }
  }

  /** Bytes read as one number from the front. */
  function OfBytes(x: int, y: int, z: int): int {
    x * 65536 + y * 256 + z
  }

  /** Digits to the base 64 read as one number from the front. */
  function OfDigits(a: int, b: int, c: int, d: int): int {
    a * 262144 + b * 4096 + c * 64 + d
  }

  lemma FourNumber(x: Byte, y: Byte, z: Byte)
    ensures var d := Four(x, y, z); OfBytes(x, y, z) == OfDigits(d[0], d[1], d[2], d[3])
  {
    assert x == 4 * (x / 4) + x % 4 && y == 16 * (y / 16) + y % 16 && z == 64 * (z / 64) + z % 64;
  }

  /** Each three bytes and their four digits are the same number. */
  lemma {:induction false} GroupNumber(b: seq<Byte>, k: nat)
    requires 3 * k + 2 < |b|
    ensures var d := Sextets(b);
            && 4 * k + 3 < |d|
            && OfBytes(b[3 * k], b[3 * k + 1], b[3 * k + 2])
               == OfDigits(d[4 * k], d[4 * k + 1], d[4 * k + 2], d[4 * k + 3])
  {
    hide Four, OfBytes, OfDigits;
    if k == 0 {
      FourNumber(b[0], b[1], b[2]);
    } else {
      GroupNumber(b[3..], k - 1);
      var d, rest := Sextets(b), Sextets(b[3..]);
      assert d == Four(b[0], b[1], b[2]) + rest;
      assert forall i :: 0 <= i < |rest| ==> d[i + 4] == rest[i];
    }
  }

  /** A last group of one byte is two digits, one of two bytes three, after filling up with zero bits. */
  predicate LastGroup(b: seq<Byte>, d: seq<Sextet>) {
    var n, m := |b|, |d|;
    && m == (8 * n + 5) / 6
    && (n % 3 == 1 ==> OfBytes(b[n - 1], 0, 0) == OfDigits(d[m - 2], d[m - 1], 0, 0))
    && (n % 3 == 2 ==> OfBytes(b[n - 2], b[n - 1], 0) == OfDigits(d[m - 3], d[m - 2], d[m - 1], 0))
  }

  lemma ShortNumber(b: seq<Byte>)
    requires |b| < 3
    ensures LastGroup(b, ShortDigits(b))
  {
    if |b| == 1 {
      assert b[0] == 4 * (b[0] / 4) + b[0] % 4;
    } else if |b| == 2 {
      assert b[0] == 4 * (b[0] / 4) + b[0] % 4 && b[1] == 16 * (b[1] / 16) + b[1] % 16;
    }
  }

  lemma LastGroupOfRest(b: seq<Byte>, d: seq<Sextet>)
    requires |b| >= 3 && |d| >= 4 && LastGroup(b[3..], d[4..])
    ensures LastGroup(b, d)
  {
    hide OfBytes, OfDigits;
    var n, m := |b|, |d|;
    assert (n - 3) % 3 == n % 3;
    assert (8 * (n - 3) + 5) / 6 == (8 * n + 5) / 6 - 4;
  }

  lemma {:induction false} LastGroupNumber(b: seq<Byte>)
    ensures LastGroup(b, Sextets(b))
  {
    hide LastGroup, Four, ShortDigits;
    if |b| < 3 {
      ShortNumber(b);
    } else {
      LastGroupNumber(b[3..]);
      assert Sextets(b)[4..] == Sextets(b[3..]);
      LastGroupOfRest(b, Sextets(b));
    }
  }

  /** What an encoded text looks like, character by character and group by group. */
  lemma EncodedText(b: seq<Byte>, k: nat)
    ensures var s, d := Encode64(b), Sextets(b);
            && |s| == |d|
            && (k < |s| ==> d[k] < |ALPHABET| && s[k] == ALPHABET[d[k]])
            && (3 * k + 2 < |b| ==>
                  && 4 * k + 3 < |d|
                  && OfBytes(b[3 * k], b[3 * k + 1], b[3 * k + 2])
                     == OfDigits(d[4 * k], d[4 * k + 1], d[4 * k + 2], d[4 * k + 3]))
            && LastGroup(b, d)
  {
    hide Sextets, ALPHABET, Char64, LastGroup, OfBytes, OfDigits;
    LastGroupNumber(b);
    if k < |Sextets(b)| {
      CharAt(Sextets(b)[k]);
    }
    if 3 * k + 2 < |b| {
      GroupNumber(b, k);
    }
  }

  function Spells(): char -> nat {
    (ch: char) => if ch in ALPHABET then 1 else 0
  }

  predicate Spellable(ch: char) {
    ch in ALPHABET || ch == '\r' || ch == '\n'
  }

  lemma SpelledCons(ch: char, s: string)
    ensures AllSpelled([ch] + s) <==> ch in ALPHABET && AllSpelled(s)
  {
    hide ALPHABET, Value64;
    ValueAt(ch);
    var t := [ch] + s;
    if AllSpelled(t) {
      assert t[0] == ch;
      assert forall i :: 0 <= i < |s| ==> t[i + 1] == s[i];
    }
  }

  lemma {:induction false} StripSpells(s: string)
    ensures AllSpelled(Strip(s)) <==> forall i :: 0 <= i < |s| ==> Spellable(s[i])
    ensures AllSpelled(Strip(s)) ==> |Strip(s)| == Sum(s, Spells())
  {
    hide ALPHABET, AllSpelled;
    if s == [] {
      NothingSpelled();
    } else {
      var rest := Strip(s[1..]);
      StripSpells(s[1..]);
      NewlinesSpellNothing();
      SpelledCons(s[0], rest);
      assert Strip(s) == if IsNewline(s[0]) then rest else [s[0]] + rest;
      assert Spellable(s[0]) <==> s[0] in ALPHABET || IsNewline(s[0]);
      assert (forall i :: 0 <= i < |s| ==> Spellable(s[i])) <==>
               Spellable(s[0]) && forall i :: 0 <= i < |s[1..]| ==> Spellable(s[1..][i]) by {
        SpellableCons(s);
      }
      assert forall i :: 1 <= i < |s| ==> s[i] == s[1..][i - 1];
      assert forall i :: 0 <= i < |s[1..]| ==> s[1..][i] == s[i + 1];
    }
  }

  lemma SpellableCons(s: string)
    requires s != []
    ensures (forall i :: 0 <= i < |s| ==> Spellable(s[i])) <==>
              Spellable(s[0]) && forall i :: 0 <= i < |s[1..]| ==> Spellable(s[1..][i])
  {
    hide Spellable;
    assert forall i :: 1 <= i < |s| ==> s[i] == s[1..][i - 1];
  }

  lemma NothingSpelled()
    ensures AllSpelled([])
  {
  }

  lemma NewlinesSpellNothing()
    ensures '\r' !in ALPHABET && '\n' !in ALPHABET
  {
    hide ALPHABET;
    ValueAt('\r');
    ValueAt('\n');
  }

  /** A text decodes exactly if, line breaks aside, it has only characters of the table, and not one too many. */
  lemma DecodesExactly(s: string)
    ensures Decode64(s).Some? <==>
              && (forall i :: 0 <= i < |s| ==> s[i] in ALPHABET || s[i] == '\r' || s[i] == '\n')
              && Sum(s, Spells()) % 4 != 1
  {
    hide ALPHABET, Strip;
    StripSpells(s);
  }

  /** Of a last group of two or three digits the bits that fill no byte are dropped. */
  predicate LastBytes(d: seq<Sextet>, b: seq<Byte>) {
    var n, m := |b|, |d|;
    && n == 6 * m / 8
    && (m % 4 == 2 ==> 0 <= OfDigits(d[m - 2], d[m - 1], 0, 0) - OfBytes(b[n - 1], 0, 0) < 65536)
    && (m % 4 == 3 ==> 0 <= OfDigits(d[m - 3], d[m - 2], d[m - 1], 0) - OfBytes(b[n - 2], b[n - 1], 0) < 256)
  }

  lemma ThreeNumber(a: Sextet, b: Sextet, c: Sextet, d: Sextet)
    ensures var r := Three(a, b, c, d); OfBytes(r[0], r[1], r[2]) == OfDigits(a, b, c, d)
  {
    assert b == 16 * (b / 16) + b % 16 && c == 4 * (c / 4) + c % 4;
  }

  lemma ShortBytesNumber(d: seq<Sextet>)
    requires |d| < 4 && |d| != 1
    ensures LastBytes(d, ShortBytes(d))
  {
    if |d| == 2 {
      assert d[1] == 16 * (d[1] / 16) + d[1] % 16;
    } else if |d| == 3 {
      assert d[1] == 16 * (d[1] / 16) + d[1] % 16 && d[2] == 4 * (d[2] / 4) + d[2] % 4;
    }
  }

  lemma LastBytesOfRest(d: seq<Sextet>, b: seq<Byte>)
    requires |d| >= 4 && |b| >= 3 && LastBytes(d[4..], b[3..])
    ensures LastBytes(d, b)
  {
    hide OfBytes, OfDigits;
    assert (|d| - 4) % 4 == |d| % 4;
    assert 6 * (|d| - 4) / 8 == 6 * |d| / 8 - 3;
  }

  lemma {:induction false} BytesNumber(d: seq<Sextet>, k: nat)
    requires |d| % 4 != 1
    ensures var b := Bytes(d);
            && LastBytes(d, b)
            && (4 * k + 3 < |d| ==>
                  && 3 * k + 2 < |b|
                  && OfBytes(b[3 * k], b[3 * k + 1], b[3 * k + 2])
                     == OfDigits(d[4 * k], d[4 * k + 1], d[4 * k + 2], d[4 * k + 3]))
  {
    hide LastBytes, OfBytes, OfDigits, Three, ShortBytes;
    if |d| < 4 {
      ShortBytesNumber(d);
    } else {
      ThreeNumber(d[0], d[1], d[2], d[3]);
      var b, rest := Bytes(d), Bytes(d[4..]);
      assert b == Three(d[0], d[1], d[2], d[3]) + rest;
      assert b[3..] == rest;
      BytesNumber(d[4..], if k > 0 then k - 1 else 0);
      LastBytesOfRest(d, b);
    }
  }

  /**
   What an accepted text decodes to, whether or not it is an encoded one: the digits of its characters, line breaks left out,
   four by four the same numbers as the bytes three by three, and a short last group less its low bits.
   */
  lemma DecodedBytes(s: string, k: nat)
    requires Decode64(s).Some?
    ensures var t, b := Strip(s), Decode64(s).value;
            && AllSpelled(t)
            && var d := Digits64(t);
            && (k < |t| ==> t[k] == ALPHABET[d[k]])
            && LastBytes(d, b)
            && (4 * k + 3 < |d| ==>
                  && 3 * k + 2 < |b|
                  && OfBytes(b[3 * k], b[3 * k + 1], b[3 * k + 2])
                     == OfDigits(d[4 * k], d[4 * k + 1], d[4 * k + 2], d[4 * k + 3]))
  {
    hide ALPHABET, Strip, Bytes, LastBytes, OfBytes, OfDigits;
    var t := Strip(s);
    BytesNumber(Digits64(t), k);
    CharAt(0);
    if k < |t| {
      ValueAt(t[k]);
    }
  }

  // ---------- Decimal ----------

  const DIGITS := "0123456789"

  lemma DigitAt(d: nat)
    requires d < 10
    ensures |DIGITS| == 10 && Digit(d) == DIGITS[d]
  {
  }

  /** The k-th digit of a printed number, from the right, is its k-th decimal place. */
  lemma {:induction false} DecimalPlaces(n: nat, k: nat)
    requires k < |PrintUint(n)|
    ensures Pow(10, k) > 0
    ensures PrintUint(n)[|PrintUint(n)| - 1 - k] == DIGITS[n / Pow(10, k) % 10]
    decreases k
  {
    PowPositive(10, k);
    DigitAt(n / Pow(10, k) % 10);
    if k > 0 {
      assert PrintUint(n) == PrintUint(n / 10) + [Digit(n % 10)];
      DecimalPlaces(n / 10, k - 1);
      PowPositive(10, k - 1);
      DivideTwice(n, Pow(10, k - 1));
    }
  }

  lemma DivideTwice(n: nat, p: int)
    requires p > 0
    ensures n / (10 * p) == n / 10 / p
  {
    var q := n / 10 / p;
    var r := n - q * (10 * p);
    assert n / 10 == q * p + n / 10 % p;
    assert n == 10 * (n / 10) + n % 10;
    assert 10 * (q * p) == q * (10 * p);
    assert 0 <= r < 10 * p;
    Quotient(n, q, 10 * p, r);
  }

  lemma Quotient(n: int, q: int, u: int, r: int)
    requires u > 0 && n == q * u + r && 0 <= r < u
    ensures n / u == q
  {
    var d := n / u - q;
    assert d * u == r - n % u;
    assert d >= 1 ==> d * u >= u;
    assert d <= -1 ==> d * u <= 0 - u;
  }

  function Zeros(k: nat): (s: string)
    ensures |s| == k && forall i :: 0 <= i < k ==> s[i] == '0'
  {
    seq(k, _ => '0')
  }

  lemma {:induction false} LeadingZeros(k: nat, n: nat)
    ensures var s := Zeros(k) + PrintUint(n);
            (forall i :: 0 <= i < |s| ==> IsDigit(s[i])) && DigitsValue(s) == n
    decreases n
  {
    var s, printed := Zeros(k) + PrintUint(n), PrintUint(n);
    if n < 10 {
      assert s[..|s| - 1] == Zeros(k);
      ZerosValue(k);
    } else {
      LeadingZeros(k, n / 10);
      assert s[..|s| - 1] == Zeros(k) + PrintUint(n / 10);
    }
  }

  lemma {:induction false} ZerosValue(k: nat)
    ensures DigitsValue(Zeros(k)) == 0
  {
    if k > 0 {
      ZerosValue(k - 1);
      assert Zeros(k)[..k - 1] == Zeros(k - 1);
    }
  }

  /** Any run of digits is the printed form of its value after some zeros. */
  lemma {:induction false} DigitsArePrinted(s: string) returns (k: nat)
    requires s != [] && forall i :: 0 <= i < |s| ==> IsDigit(s[i])
    ensures s == Zeros(k) + PrintUint(DigitsValue(s))
  {
    if NoLeadingZero(s) {
      DigitsPrintBackExactly(s);
      k := 0;
    } else {
      k := DigitsArePrinted(s[1..]);
      LeadingZeros(k, DigitsValue(s[1..]));
      assert s == Zeros(1) + s[1..];
      assert s == Zeros(k + 1) + PrintUint(DigitsValue(s[1..]));
      LeadingZeros(k + 1, DigitsValue(s[1..]));
      k := k + 1;
    }
  }

  /** Which texts are read as the number n: exactly its printed form after any number of zeros, if n is below 2^bits. */
  lemma ParsesExactly(s: string, bits: nat, n: nat)
    ensures ParseUint(s, bits) == Some(n) <==> n < Pow(2, bits) && exists k :: s == Zeros(k) + PrintUint(n)
  {
    if ParseUint(s, bits) == Some(n) {
      var k := DigitsArePrinted(s);
    }
    if k :| s == Zeros(k) + PrintUint(n) {
      LeadingZeros(k, n);
    }
  }

  /** The widths that `ParseUint` is called with. */
  lemma WidthsExact(p: Params)
    ensures InWidth(p) <==> p.memory < 0x1_0000_0000 && p.time < 0x1_0000_0000 && p.threads < 256
  {
    assert Pow(2, 8) == 256;
    assert Pow(2, 16) == 65_536;
    assert Pow(2, 24) == 16_777_216;
    assert Pow(2, 32) == 0x1_0000_0000;
  }

  // ---------- The whole text ----------

  lemma DefaultNumbers()
    ensures PrintUint(65_536) == "65536" && PrintUint(3) == "3" && PrintUint(2) == "2"
  {
    assert PrintUint(6) == "6";
    assert PrintUint(65) == "65";
    assert PrintUint(655) == "655";
    assert PrintUint(6553) == "6553";
  }

  lemma JoinThree(a: string, b: string, c: string, sep: char)
    ensures Join([a, b, c], sep) == a + [sep] + b + [sep] + c
  {
    assert [a, b, c][1..] == [b, c] && [b, c][1..] == [c];
    assert Join([b, c], sep) == b + [sep] + c;
    assert a + [sep] + (b + [sep] + c) == a + [sep] + b + [sep] + c;
  }

  lemma JoinFront(a: string, rest: seq<string>, sep: char)
    requires |rest| >= 1
    ensures Join([a] + rest, sep) == a + [sep] + Join(rest, sep)
  {
    assert ([a] + rest)[1..] == rest;
  }

  lemma DefaultItems()
    ensures Join(ItemsOf(DEFAULT), ',') == "m=65536,t=3,p=2"
  {
    DefaultNumbers();
    JoinThree("m=65536", "t=3", "p=2", ',');
  }

  lemma HeaderJoin(a: string, b: string, tail: seq<string>, sep: char)
    requires |tail| >= 1
    ensures Join([[], a, b] + tail, sep) == ([sep] + a + [sep] + b + [sep]) + Join(tail, sep)
  {
    hide Join;
    assert [[], a, b] + tail == [[]] + ([a] + ([b] + tail));
    JoinFront([], [a] + ([b] + tail), sep);
    JoinFront(a, [b] + tail, sep);
    JoinFront(b, tail, sep);
    Regroup(a, b, Join(tail, sep), sep);
  }

  lemma HeaderText()
    ensures ['$'] + "argon2id" + ['$'] + "v=19" + ['$'] == "$argon2id$v=19$"
  {
  }

  lemma Regroup(a: string, b: string, c: string, sep: char)
    ensures [] + [sep] + (a + [sep] + (b + [sep] + c)) == ([sep] + a + [sep] + b + [sep]) + c
  {
  }

  lemma RegroupBody(front: string, items: string, s: string, h: string, sep: char)
    ensures front + (items + [sep] + s + [sep] + h) == (front + items + [sep]) + s + [sep] + h
  {
  }

  lemma FrontText()
    ensures "$argon2id$v=19$" + "m=65536,t=3,p=2" + ['$'] == "$argon2id$v=19$m=65536,t=3,p=2$"
  {
  }

  lemma PrintedDefault(salt: seq<Byte>, hash: seq<Byte>)
    ensures Print(Parsed(DEFAULT, salt, hash)) == "$argon2id$v=19$m=65536,t=3,p=2$" + Encode64(salt) + ['$'] + Encode64(hash)
  {
    hide Join, Encode64, ItemsOf;
    var items, s, h := "m=65536,t=3,p=2", Encode64(salt), Encode64(hash);
    DefaultItems();
    assert PrintedParts(Parsed(DEFAULT, salt, hash)) == [[], "argon2id", "v=19"] + [items, s, h];
    HeaderJoin("argon2id", "v=19", [items, s, h], '$');
    HeaderText();
    JoinThree(items, s, h, '$');
    RegroupBody("$argon2id$v=19$", items, s, h, '$');
    FrontText();
  }

  /** The text `GenerateHash` returns, letter for letter around its two base64 parts. */
  lemma GeneratedText(kdf: Kdf, password: seq<Byte>, salt: seq<Byte>)
    ensures GenerateHash(kdf, password, salt)
         == "$argon2id$v=19$m=65536,t=3,p=2$" + Encode64(salt) + "$" + Encode64(kdf(password, salt, 3, 65_536, 2, 32))
  {
    hide Print, Encode64;
    PrintedDefault(salt, kdf(password, salt, 3, 65_536, 2, 32));
  }

  /** The verdict on any printed text: the parameters go to Argon2id as passes, memory, lanes and length, in that order. */
  lemma VerdictOnPrinted(kdf: Kdf, h: Parsed, plain: seq<Byte>)
    requires InWidth(h.params) && |h.hash| < 0x1_0000_0000
    ensures Verdict(kdf, Print(h), plain)
         == Ok(h.hash == kdf(plain, h.salt, h.params.time, h.params.memory, h.params.threads, |h.hash|))
  {
    hide Parse, Print;
    HashRoundTrip(h);
  }

  // ---------- What is accepted, and why not ----------

  /** The parameter a key names, and the limit its number stays below. */
  predicate Sets(key: string, n: nat, p: Params, q: Params) {
    || (key == "m" && n < 0x1_0000_0000 && q == p.(memory := n))
    || (key == "t" && n < 0x1_0000_0000 && q == p.(time := n))
    || (key == "p" && n < 256 && q == p.(threads := n))
  }

  lemma Widths()
    ensures Pow(2, 32) == 0x1_0000_0000 && Pow(2, 8) == 256
  {
    WidthsExact(Params(0, 0, 0));
    assert Pow(2, 8) == 256;
    assert Pow(2, 16) == 65_536;
    assert Pow(2, 24) == 16_777_216;
  }

  lemma SplitOnce(key: string, text: string)
    requires '=' !in key && '=' !in text
    ensures Split(key + "=" + text, '=') == [key, text]
  {
    SplitFirst(key, text, '=');
    SplitWhole(text, '=');
  }

  lemma StoresExactly(key: string, text: string, p: Params, q: Params)
    ensures Store(key, text, p) == Ok(q) <==> exists k: nat, n: nat :: text == Zeros(k) + PrintUint(n) && Sets(key, n, p, q)
  {
    hide ParseUint, PrintUint, Zeros, Pow;
    Widths();
    if Store(key, text, p) == Ok(q) {
      var n := Field(q, key);
      ParsesExactly(text, if key == "p" then 8 else 32, n);
      var k :| text == Zeros(k) + PrintUint(n);
      assert Sets(key, n, p, q);
    }
    if k: nat, n: nat :| text == Zeros(k) + PrintUint(n) && Sets(key, n, p, q) {
      ParsesExactly(text, if key == "p" then 8 else 32, n);
    }
  }

  /** An item sets a parameter exactly if it is the key, an equals sign and a number within the width, zeros in front allowed. */
  lemma ItemExactly(item: string, p: Params, q: Params)
    ensures ParseItem(item, p) == Ok(q) <==>
              exists key, k: nat, n: nat :: item == key + "=" + Zeros(k) + PrintUint(n) && Sets(key, n, p, q)
  {
    hide Store, PrintUint, Zeros, Sets;
    if ParseItem(item, p) == Ok(q) {
      var keyVal := Split(item, '=');
      JoinSplit(item, '=');
      assert keyVal == [keyVal[0], keyVal[1]] && keyVal[1..] == [keyVal[1]];
      assert item == keyVal[0] + "=" + keyVal[1];
      StoresExactly(keyVal[0], keyVal[1], p, q);
      var k: nat, n: nat :| keyVal[1] == Zeros(k) + PrintUint(n) && Sets(keyVal[0], n, p, q);
      assert item == keyVal[0] + "=" + Zeros(k) + PrintUint(n);
    }
    if key, k: nat, n: nat :| item == key + "=" + Zeros(k) + PrintUint(n) && Sets(key, n, p, q) {
      SetsKey(key, n, p, q);
      LeadingZeros(k, n);
      var text := Zeros(k) + PrintUint(n);
      assert item == key + "=" + text;
      assert '=' !in text;
      SplitOnce(key, text);
      StoresExactly(key, text, p, q);
    }
  }

  lemma SetsKey(key: string, n: nat, p: Params, q: Params)
    requires Sets(key, n, p, q)
    ensures '=' !in key
  {
  }

  /** No number the text could be is within the key's width. */
  ghost predicate NoNumber(key: string, text: string) {
    forall k: nat, n: nat :: text == Zeros(k) + PrintUint(n) ==> n >= if key == "p" then 256 else 0x1_0000_0000
  }

  /** Why an item is refused. */
  ghost predicate Refuses(item: string, e: Error) {
    var keyVal := Split(item, '=');
    match e
    case BadItem => |keyVal| != 2
    case UnknownKey => |keyVal| == 2 && keyVal[0] !in ["m", "t", "p"]
    case BadNumber => |keyVal| == 2 && keyVal[0] in ["m", "t", "p"] && NoNumber(keyVal[0], keyVal[1])
    case _ => false
  }

  lemma StoreRefuses(key: string, text: string, p: Params, e: Error)
    ensures Store(key, text, p) == Err(e) <==>
              || (e == UnknownKey && key !in ["m", "t", "p"])
              || (e == BadNumber && key in ["m", "t", "p"] && NoNumber(key, text))
  {
    hide ParseUint, PrintUint, Zeros, Pow;
    Widths();
    var bits := if key == "p" then 8 else 32;
    if ParseUint(text, bits).Some? {
      ParsesExactly(text, bits, ParseUint(text, bits).value);
      ParsedFits(text, bits);
    }
    if k: nat, n: nat :| text == Zeros(k) + PrintUint(n) && n < Pow(2, bits) {
      ParsesExactly(text, bits, n);
    }
  }

  lemma ParsedFits(text: string, bits: nat)
    requires ParseUint(text, bits).Some?
    ensures ParseUint(text, bits).value < Pow(2, bits)
  {
  }

  lemma ItemRefused(item: string, p: Params, e: Error)
    ensures ParseItem(item, p) == Err(e) <==> Refuses(item, e)
  {
    hide Store, NoNumber;
    var keyVal := Split(item, '=');
    if |keyVal| == 2 {
      StoreRefuses(keyVal[0], keyVal[1], p, e);
    }
  }

  /** The first item that is refused decides. */
  ghost predicate FirstRefused(items: seq<string>, e: Error) {
    exists i :: 0 <= i < |items| && Refuses(items[i], e) && forall k :: 0 <= k < i ==> Acceptable(items[k])
  }

  lemma {:induction false} ItemsRefused(items: seq<string>, p: Params, e: Error)
    ensures ParseItems(items, p) == Err(e) <==> FirstRefused(items, e)
  {
    hide Refuses, ParseItem, KeyOf, NumberOf;
    if items != [] {
      ItemEffect(items[0], p);
      ItemRefused(items[0], p, e);
      AcceptableNotRefused(items[0], e);
      var rest := items[1..];
      if Acceptable(items[0]) {
        ItemsRefused(rest, ParseItem(items[0], p).value, e);
        if i :| 0 <= i < |rest| && Refuses(rest[i], e) && forall k :: 0 <= k < i ==> Acceptable(rest[k]) {
          assert items[i + 1] == rest[i];
          assert forall k :: 1 <= k < i + 1 ==> items[k] == rest[k - 1];
        }
        if i :| 0 <= i < |items| && Refuses(items[i], e) && forall k :: 0 <= k < i ==> Acceptable(items[k]) {
          assert rest[i - 1] == items[i];
          assert forall k :: 0 <= k < i - 1 ==> rest[k] == items[k + 1];
        }
      }
    }
  }

  lemma AcceptableNotRefused(item: string, e: Error)
    ensures Acceptable(item) ==> !Refuses(item, e)
  {
    hide Refuses, ParseItem;
    ItemRefused(item, Params(0, 0, 0), e);
  }

  /** Why a text is refused, the first reason in the order of the code; anything else gets a verdict. */
  lemma RefusedExactly(kdf: Kdf, hashed: string, plain: seq<Byte>, e: Error)
    ensures var parts := Split(hashed, '$');
            var items := if |parts| == 6 then Split(parts[3], ',') else [];
            var read := |items| == 3 && forall i :: 0 <= i < 3 ==> Acceptable(items[i]);
            && (Verdict(kdf, hashed, plain) == Err(BadFormat) <==> |parts| != 6)
            && (Verdict(kdf, hashed, plain) == Err(BadParams) <==> |parts| == 6 && |items| != 3)
            && (e in {BadItem, UnknownKey, BadNumber} ==>
                  (Verdict(kdf, hashed, plain) == Err(e) <==> |items| == 3 && FirstRefused(items, e)))
            && (Verdict(kdf, hashed, plain) == Err(BadBase64) <==> read && (Decode64(parts[4]).None? || Decode64(parts[5]).None?))
            && (Verdict(kdf, hashed, plain).Ok? <==> read && Decode64(parts[4]).Some? && Decode64(parts[5]).Some?)
  {
    hide ParseItems, Acceptable, FirstRefused, Matches, Decode64, Split;
    var parts := Split(hashed, '$');
    if |parts| == 6 && |Split(parts[3], ',')| == 3 {
      var items := Split(parts[3], ',');
      ItemsAcceptable(items, Params(0, 0, 0));
      ItemsRefused(items, Params(0, 0, 0), e);
      OnlyItemErrors(items, Params(0, 0, 0));
    }
  }

  lemma {:induction false} OnlyItemErrors(items: seq<string>, p: Params)
    ensures ParseItems(items, p).Err? ==> ParseItems(items, p).error in {BadItem, UnknownKey, BadNumber}
  {
    if items != [] && ParseItem(items[0], p).Ok? {
      OnlyItemErrors(items[1..], ParseItem(items[0], p).value);
    }
  }
}
