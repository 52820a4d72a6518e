/** The password-hash text: printed by GenerateHash, parsed by hand in VerifyHash. Argon2id is an arbitrary function. */
module PasswordHash {
  import opened Common
  import opened TextCodec

  datatype Error = BadFormat | BadParams | BadItem | BadNumber | UnknownKey | BadBase64

  /** memory in KiB, passes, lanes */
  datatype Params = Params(memory: nat, time: nat, threads: nat)

  datatype Parsed = Parsed(params: Params, salt: seq<Byte>, hash: seq<Byte>)

  /** password, salt, time, memory, threads, key length */
  type Kdf = (seq<Byte>, seq<Byte>, nat, nat, nat, nat) -> seq<Byte>

  /** The one property of Argon2id used here: the output has the requested length. */
  ghost predicate IsKdf(kdf: Kdf) {
    forall p, s, t, m, l, k :: |kdf(p, s, t, m, l, k)| == k
  }

  const WORD := 32
  const OCTET := 8

  predicate InWidth(p: Params) {
    p.memory < Pow(2, WORD) && p.time < Pow(2, WORD) && p.threads < Pow(2, OCTET)
  }

  // ---------- Printing ----------

  function Item(key: string, n: nat): string {
    key + "=" + PrintUint(n)
  }

  function ItemsOf(p: Params): seq<string> {
    [Item("m", p.memory), Item("t", p.time), Item("p", p.threads)]
  }

  function PrintedParts(h: Parsed): seq<string> {
    [[], "argon2id", "v=19", Join(ItemsOf(h.params), ','), Encode64(h.salt), Encode64(h.hash)]
  }

  /** `$argon2id$v=19$m=..,t=..,p=..$salt$hash` */
  function Print(h: Parsed): string {
    Join(PrintedParts(h), '$')
  }

  const DEFAULT := Params(64 * 1024, 3, 2)
  const KEY_LENGTH := 32

  /** GenerateHash for the salt that was drawn. */
  function GenerateHash(kdf: Kdf, password: seq<Byte>, salt: seq<Byte>): string {
    Print(Parsed(DEFAULT, salt, kdf(password, salt, DEFAULT.time, DEFAULT.memory, DEFAULT.threads, KEY_LENGTH)))
  }

  // ---------- Parsing ----------

  function Store(key: string, text: string, p: Params): Result<Params, Error> {
    if key == "m" then
      match ParseUint(text, WORD) case None => Err(BadNumber) case Some(n) => Ok(p.(memory := n))
    else if key == "t" then
      match ParseUint(text, WORD) case None => Err(BadNumber) case Some(n) => Ok(p.(time := n))
    else if key == "p" then
      match ParseUint(text, OCTET) case None => Err(BadNumber) case Some(n) => Ok(p.(threads := n))
    else Err(UnknownKey)
  }

  function ParseItem(item: string, p: Params): Result<Params, Error> {
    var keyVal := Split(item, '=');
    if |keyVal| != 2 then Err(BadItem) else Store(keyVal[0], keyVal[1], p)
  }

  function ParseItems(items: seq<string>, p: Params): Result<Params, Error> {
    if items == [] then Ok(p)
    else
      match ParseItem(items[0], p)
      case Err(e) => Err(e)
      case Ok(q) => ParseItems(items[1..], q)
  }

  /** Everything VerifyHash reads out of the text. The first three parts are not looked at. */
  function Parse(hashed: string): Result<Parsed, Error> {
    var parts := Split(hashed, '$');
    if |parts| != 6 then Err(BadFormat)
    else
      var items := Split(parts[3], ',');
      if |items| != 3 then Err(BadParams)
      else
        match ParseItems(items, Params(0, 0, 0))
        case Err(e) => Err(e)
        case Ok(params) =>
          var salt := Decode64(parts[4]);
          var hash := Decode64(parts[5]);
          if salt.None? || hash.None? then Err(BadBase64) else Ok(Parsed(params, salt.value, hash.value))
  }

  function Matches(kdf: Kdf, h: Parsed, plain: seq<Byte>): bool {
    h.hash == kdf(plain, h.salt, h.params.time, h.params.memory, h.params.threads, |h.hash| % 0x1_0000_0000)
  }

  /** The verdict VerifyHash must reach. */
  function Verdict(kdf: Kdf, hashed: string, plain: seq<Byte>): Result<bool, Error> {
    match Parse(hashed)
    case Err(e) => Err(e)
    case Ok(h) => Ok(Matches(kdf, h, plain))
  }

  method VerifyHash(kdf: Kdf, hashed: string, plain: seq<Byte>) returns (r: Result<bool, Error>)
    ensures r == Verdict(kdf, hashed, plain)
  {
    var parts := Split(hashed, '$');
    if |parts| != 6 {
      return Err(BadFormat);
    }
    var paramItems := Split(parts[3], ',');
    if |paramItems| != 3 {
      return Err(BadParams);
    }
    var memory, time, threads := 0, 0, 0;
    for i := 0 to |paramItems|
      invariant ParseItems(paramItems, Params(0, 0, 0)) == ParseItems(paramItems[i..], Params(memory, time, threads))
    {
      var keyVal := Split(paramItems[i], '=');
      if |keyVal| != 2 {
        return Err(BadItem);
      }
      assert paramItems[i..][1..] == paramItems[i + 1..];
      if keyVal[0] == "m" {
        var mem := ParseUint(keyVal[1], 32);
        if mem.None? {
          return Err(BadNumber);
        }
        memory := mem.value;
      } else if keyVal[0] == "t" {
        var t := ParseUint(keyVal[1], 32);
        if t.None? {
          return Err(BadNumber);
        }
        time := t.value;
      } else if keyVal[0] == "p" {
        var p := ParseUint(keyVal[1], 8);
        if p.None? {
          return Err(BadNumber);
        }
        threads := p.value;
      } else {
        return Err(UnknownKey);
      }
    }
    var salt := Decode64(parts[4]);
    if salt.None? {
      return Err(BadBase64);
    }
    var expected := Decode64(parts[5]);
    if expected.None? {
      return Err(BadBase64);
    }
    var computed := kdf(plain, salt.value, time, memory, threads, |expected.value| % 0x1_0000_0000);
    r := Ok(expected.value == computed);
  }

  // ---------- Parsing undoes printing ----------

  lemma DigitsAvoid(n: nat)
    ensures '=' !in PrintUint(n) && ',' !in PrintUint(n) && '$' !in PrintUint(n)
  {
  }

  lemma EncodedAvoids(b: seq<Byte>)
    ensures '$' !in Encode64(b)
  {
  }

  lemma ItemParts(key: string, n: nat)
    requires '=' !in key && ',' !in key && '$' !in key
    ensures Split(Item(key, n), '=') == [key, PrintUint(n)]
    ensures ',' !in Item(key, n) && '$' !in Item(key, n)
  {
    DigitsAvoid(n);
    SplitFirst(key, PrintUint(n), '=');
    SplitWhole(PrintUint(n), '=');
  }

  lemma ItemRoundTrip(key: string, n: nat, bits: nat, p: Params)
    requires if key == "p" then bits == OCTET else (key == "m" || key == "t") && bits == WORD
    ensures ParseItem(Item(key, n), p)
         == if n >= Pow(2, bits) then Err(BadNumber)
            else Ok(if key == "m" then p.(memory := n) else if key == "t" then p.(time := n) else p.(threads := n))
  {
    ItemParts(key, n);
    ParsePrinted(n, bits);
  }

  /** The printed parameters parse back exactly when each fits its width; otherwise the text is rejected. */
  lemma ParamsRoundTrip(p: Params)
    ensures ParseItems(ItemsOf(p), Params(0, 0, 0)) == if InWidth(p) then Ok(p) else Err(BadNumber)
  {
    hide ParseItem, Item;
    var m, t, l := Item("m", p.memory), Item("t", p.time), Item("p", p.threads);
    ItemRoundTrip("m", p.memory, WORD, Params(0, 0, 0));
    ItemRoundTrip("t", p.time, WORD, Params(p.memory, 0, 0));
    ItemRoundTrip("p", p.threads, OCTET, Params(p.memory, p.time, 0));
    assert [l][1..] == [];
    assert ParseItems([l], Params(p.memory, p.time, 0)) == if p.threads < Pow(2, OCTET) then Ok(p) else Err(BadNumber);
    assert [t, l][1..] == [l];
    assert ItemsOf(p)[1..] == [t, l];
  }

  lemma {:induction false} JoinAvoids(parts: seq<string>, sep: char, ch: char)
    requires |parts| >= 1 && ch != sep && forall i :: 0 <= i < |parts| ==> ch !in parts[i]
    ensures ch !in Join(parts, sep)
  {
    if |parts| > 1 {
      JoinAvoids(parts[1..], sep, ch);
    }
  }

  lemma ItemsJoin(p: Params)
    ensures '$' !in Join(ItemsOf(p), ',') && Split(Join(ItemsOf(p), ','), ',') == ItemsOf(p)
  {
    ItemParts("m", p.memory);
    ItemParts("t", p.time);
    ItemParts("p", p.threads);
    SplitJoin(ItemsOf(p), ',');
    JoinAvoids(ItemsOf(p), ',', '$');
  }

  lemma SplitPrinted(h: Parsed)
    ensures Split(Print(h), '$') == PrintedParts(h) && Split(Join(ItemsOf(h.params), ','), ',') == ItemsOf(h.params)
  {
    ItemsJoin(h.params);
    EncodedAvoids(h.salt);
    EncodedAvoids(h.hash);
    SplitJoin(PrintedParts(h), '$');
  }

  /**
   Parsing undoes printing for all parameters that fit their widths and all salt and hash strings, and rejects
   the printed text otherwise. The printed text has exactly six `$`-separated parts.
   */
  lemma HashRoundTrip(h: Parsed)
    ensures |Split(Print(h), '$')| == 6
    ensures Parse(Print(h)) == if InWidth(h.params) then Ok(h) else Err(BadNumber)
  {
    SplitPrinted(h);
    ParamsRoundTrip(h.params);
    DecodeEncoded(h.salt);
    DecodeEncoded(h.hash);
  }

  lemma DefaultFits()
    ensures InWidth(DEFAULT)
  {
    PowMonotone(2, 17, WORD);
    assert Pow(2, 8) == 256;
    assert Pow(2, 16) == 65_536;
  }

  /**
   A generated hash accepts a candidate exactly when the candidate derives the same key: in particular it accepts
   the password it was generated from, for every password and every salt.
   */
  lemma VerifyGenerated(kdf: Kdf, password: seq<Byte>, salt: seq<Byte>, candidate: seq<Byte>)
    requires IsKdf(kdf)
    ensures Verdict(kdf, GenerateHash(kdf, password, salt), candidate)
         == Ok(kdf(password, salt, 3, 65_536, 2, 32) == kdf(candidate, salt, 3, 65_536, 2, 32))
    ensures Verdict(kdf, GenerateHash(kdf, password, salt), password) == Ok(true)
  {
    hide Parse, Print, Pow;
    DefaultFits();
    HashRoundTrip(Parsed(DEFAULT, salt, kdf(password, salt, 3, 65_536, 2, 32)));
  }

  /** The algorithm name and version are not checked: only the last three parts decide. */
  lemma HeaderIgnored(kdf: Kdf, h: string, k: string, plain: seq<Byte>)
    requires |Split(h, '$')| == |Split(k, '$')| == 6 && Split(h, '$')[3..] == Split(k, '$')[3..]
    ensures Verdict(kdf, h, plain) == Verdict(kdf, k, plain)
  {
  }

  // ---------- Which accepted texts are the printed one ----------

  predicate CanonicalItem(item: string, key: string) {
    var keyVal := Split(item, '=');
    |keyVal| == 2 && keyVal[0] == key && NoLeadingZero(keyVal[1])
  }

  predicate CanonicalBase64(s: string) {
    Decode64(s).Some? && NoNewline(s) && TailClear(Digits64(Strip(s)))
  }

  /** The header, the items in order without leading zeros, and base64 without newlines or stray low bits. */
  predicate Canonical(s: string) {
    var parts := Split(s, '$');
    && |parts| == 6 && parts[..3] == [[], "argon2id", "v=19"]
    && (var items := Split(parts[3], ',');
        && |items| == 3
        && CanonicalItem(items[0], "m") && CanonicalItem(items[1], "t") && CanonicalItem(items[2], "p"))
    && CanonicalBase64(parts[4]) && CanonicalBase64(parts[5])
  }

  lemma PrintedItemCanonical(key: string, n: nat)
    requires IsKey(key)
    ensures CanonicalItem(Item(key, n), key)
  {
    ItemParts(key, n);
    PrintedLead(n);
  }

  /** An acceptable canonical item is the one printed for its key and number. */
  lemma CanonicalItemPrinted(item: string, key: string, p: Params)
    requires IsKey(key) && CanonicalItem(item, key) && ParseItem(item, p).Ok?
    ensures var q := ParseItem(item, p).value;
            item == Item(key, Field(q, key)) && forall other :: IsKey(other) && other != key ==> Field(q, other) == Field(p, other)
  {
    var keyVal := Split(item, '=');
    JoinSplit(item, '=');
    assert keyVal == [key, keyVal[1]] && [key, keyVal[1]][1..] == [keyVal[1]];
    assert item == key + "=" + keyVal[1];
    DigitsPrintBackExactly(keyVal[1]);
  }

  lemma CanonicalItemsPrinted(items: seq<string>)
    requires |items| == 3 && CanonicalItem(items[0], "m") && CanonicalItem(items[1], "t") && CanonicalItem(items[2], "p")
    requires ParseItems(items, Params(0, 0, 0)).Ok?
    ensures items == ItemsOf(ParseItems(items, Params(0, 0, 0)).value)
  {
    hide ParseItem, CanonicalItem, Item;
    var none := Params(0, 0, 0);
    var m := ParseItem(items[0], none).value;
    CanonicalItemPrinted(items[0], "m", none);
    assert items[1..][0] == items[1] && items[1..][1..] == items[2..];
    assert ParseItems(items, none) == ParseItems(items[1..], m);
    var t := ParseItem(items[1], m).value;
    CanonicalItemPrinted(items[1], "t", m);
    assert items[2..][0] == items[2] && items[2..][1..] == [];
    assert ParseItems(items[1..], m) == ParseItems(items[2..], t);
    var p := ParseItem(items[2], t).value;
    CanonicalItemPrinted(items[2], "p", t);
    assert ParseItems(items[2..], t) == Ok(p);
    assert IsKey("m") && IsKey("t") && IsKey("p");
  }

  lemma PrintedIsCanonical(s: string)
    requires Parse(s).Ok? && Print(Parse(s).value) == s
    ensures Canonical(s)
  {
    hide ParseItems, CanonicalItem, Item;
    var h := Parse(s).value;
    SplitPrinted(h);
    PrintedItemCanonical("m", h.params.memory);
    PrintedItemCanonical("t", h.params.time);
    PrintedItemCanonical("p", h.params.threads);
    EncodeDecodedExactly(Split(s, '$')[4]);
    EncodeDecodedExactly(Split(s, '$')[5]);
  }

  lemma CanonicalBase64Printed(s: string)
    requires CanonicalBase64(s)
    ensures Encode64(Decode64(s).value) == s
  {
    EncodeDecodedExactly(s);
  }

  lemma CanonicalParams(s: string, params: Params)
    requires var items := Split(s, ',');
             && |items| == 3 && CanonicalItem(items[0], "m") && CanonicalItem(items[1], "t") && CanonicalItem(items[2], "p")
             && ParseItems(items, Params(0, 0, 0)) == Ok(params)
    ensures Join(ItemsOf(params), ',') == s
  {
    hide ParseItems, CanonicalItem;
    JoinSplit(s, ',');
    CanonicalItemsPrinted(Split(s, ','));
  }

  lemma CanonicalIsPrinted(s: string)
    requires Parse(s).Ok? && Canonical(s)
    ensures Print(Parse(s).value) == s
  {
    hide ParseItems, CanonicalItem, CanonicalBase64, Decode64, Split, Join, ItemsOf;
    var h, parts := Parse(s).value, Split(s, '$');
    CanonicalParams(parts[3], h.params);
    CanonicalBase64Printed(parts[4]);
    CanonicalBase64Printed(parts[5]);
    assert parts == parts[..3] + [parts[3], parts[4], parts[5]];
    assert parts == PrintedParts(h);
    JoinSplit(s, '$');
  }

  /**
   Which accepted texts are the printed one: exactly the canonical ones. Another header, another order or a repetition of
   the items, leading zeros, newlines and stray low bits are the only ways to spell a hash differently.
   */
  lemma PrintParsedExactly(s: string)
    requires Parse(s).Ok?
    ensures Print(Parse(s).value) == s <==> Canonical(s)
  {
    if Canonical(s) {
      CanonicalIsPrinted(s);
    } else if Print(Parse(s).value) == s {
      PrintedIsCanonical(s);
    }
  }

  // ---------- The order of the parameters does not matter ----------

  function KeyOf(item: string): string {
    Split(item, '=')[0]
  }

  predicate Acceptable(item: string) {
    ParseItem(item, Params(0, 0, 0)).Ok?
  }

  function Field(p: Params, key: string): nat {
    if key == "m" then p.memory else if key == "t" then p.time else p.threads
  }

  /** The number an acceptable item carries. */
  function NumberOf(item: string): nat
    requires Acceptable(item)
  {
    Field(ParseItem(item, Params(0, 0, 0)).value, KeyOf(item))
  }

  predicate IsKey(key: string) {
    key == "m" || key == "t" || key == "p"
  }

  lemma ItemEffect(item: string, p: Params)
    ensures ParseItem(item, p).Ok? <==> Acceptable(item)
    ensures Acceptable(item) ==> IsKey(KeyOf(item)) && Field(ParseItem(item, p).value, KeyOf(item)) == NumberOf(item)
    ensures Acceptable(item) ==> forall key :: IsKey(key) && key != KeyOf(item) ==> Field(ParseItem(item, p).value, key) == Field(p, key)
  {
  }

  /** The list parses iff each item does; a number too large for its width spoils the whole list. */
  lemma {:induction false} ItemsAcceptable(items: seq<string>, p: Params)
    ensures ParseItems(items, p).Ok? <==> forall i :: 0 <= i < |items| ==> Acceptable(items[i])
  {
    if items != [] {
      ItemEffect(items[0], p);
      if Acceptable(items[0]) {
        ItemsAcceptable(items[1..], ParseItem(items[0], p).value);
        assert forall i :: 1 <= i < |items| ==> items[i] == items[1..][i - 1];
      }
    }
  }

  predicate DistinctKeys(items: seq<string>) {
    forall i, j :: 0 <= i < j < |items| ==> KeyOf(items[i]) != KeyOf(items[j])
  }

  /** With distinct keys, each field is the number of the item that names it, or what it was. */
  lemma {:induction false} FieldOfItems(items: seq<string>, p: Params, key: string)
    requires ParseItems(items, p).Ok? && DistinctKeys(items) && IsKey(key)
    ensures (forall i :: 0 <= i < |items| ==> KeyOf(items[i]) != key) ==> Field(ParseItems(items, p).value, key) == Field(p, key)
    ensures forall i :: 0 <= i < |items| && KeyOf(items[i]) == key ==>
              Acceptable(items[i]) && Field(ParseItems(items, p).value, key) == NumberOf(items[i])
  {
    if items != [] {
      ItemEffect(items[0], p);
      var q := ParseItem(items[0], p).value;
      FieldOfItems(items[1..], q, key);
      assert forall i :: 1 <= i < |items| ==> items[i] == items[1..][i - 1];
    }
  }

  lemma SameMembers(items: seq<string>, other: seq<string>, i: nat) returns (j: nat)
    requires multiset(items) == multiset(other) && i < |items|
    ensures j < |other| && other[j] == items[i]
  {
    assert items[i] in multiset(items);
    assert items[i] in other;
    j :| 0 <= j < |other| && other[j] == items[i];
  }

  lemma SameField(items: seq<string>, other: seq<string>, p: Params, key: string)
    requires multiset(items) == multiset(other) && DistinctKeys(items) && DistinctKeys(other) && IsKey(key)
    requires ParseItems(items, p).Ok? && ParseItems(other, p).Ok?
    ensures Field(ParseItems(items, p).value, key) == Field(ParseItems(other, p).value, key)
  {
    FieldOfItems(items, p, key);
    FieldOfItems(other, p, key);
    if i :| 0 <= i < |items| && KeyOf(items[i]) == key {
      var j := SameMembers(items, other, i);
    } else {
      forall j | 0 <= j < |other|
        ensures KeyOf(other[j]) != key
      {
        var i := SameMembers(other, items, j);
      }
    }
  }

  lemma {:induction false} PermutedKeys(items: seq<string>, other: seq<string>)
    requires multiset(items) == multiset(other) && DistinctKeys(items)
    ensures DistinctKeys(other)
  {
    forall k, l | 0 <= k < l < |other|
      ensures KeyOf(other[k]) != KeyOf(other[l])
    {
      var i := SameMembers(other, items, k);
      var j := SameMembers(other, items, l);
      if i == j {
        assert other == other[..l] + [other[l]] + other[l + 1..];
        assert other[k] in multiset(other[..l]);
        assert multiset(other)[other[l]] >= 2;
        SingleOccurrence(items, i);
      }
    }
  }

  lemma SingleOccurrence(items: seq<string>, i: nat)
    requires DistinctKeys(items) && i < |items|
    ensures multiset(items)[items[i]] == 1
  {
    assert items == items[..i] + [items[i]] + items[i + 1..];
    assert items[i] !in items[..i] && items[i] !in items[i + 1..];
  }

  /** Every order of the same distinctly keyed items gives the same parameters, or is rejected as well. */
  lemma OrderIndependent(items: seq<string>, other: seq<string>, p: Params)
    requires multiset(items) == multiset(other) && DistinctKeys(items)
    ensures ParseItems(items, p).Ok? <==> ParseItems(other, p).Ok?
    ensures ParseItems(items, p).Ok? ==> ParseItems(items, p).value == ParseItems(other, p).value
  {
    ItemsAcceptable(items, p);
    ItemsAcceptable(other, p);
    forall i | 0 <= i < |items|
      ensures exists j :: 0 <= j < |other| && other[j] == items[i]
    {
      var j := SameMembers(items, other, i);
    }
    forall j | 0 <= j < |other|
      ensures exists i :: 0 <= i < |items| && items[i] == other[j]
    {
      var i := SameMembers(other, items, j);
    }
    if ParseItems(items, p).Ok? {
      PermutedKeys(items, other);
      SameField(items, other, p, "m");
      SameField(items, other, p, "t");
      SameField(items, other, p, "p");
    }
  }
}
