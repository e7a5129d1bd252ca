/**
 Threat-feed address matching (backend/src/auth/security-threat.service.ts): the 32-bit operators of
 JavaScript on integers, and what masking an address with them means.
 */
module Cidr {
  import opened Collections
  import opened Decimals
  import opened Division
  import opened Options

  const TWO_TO_THE_32 := 0x1_0000_0000

  function Pow2(n: nat): (r: nat)
    ensures r >= 1
  {
    if n == 0 then 1 else 2 * Pow2(n - 1)
  }

  // ---- 32-bit operators ----

  function ToUint32(x: int): (u: nat)
    ensures u < TWO_TO_THE_32
  {
    x % TWO_TO_THE_32
  }

  function ToInt32(x: int): (i: int)
    ensures -0x8000_0000 <= i < 0x8000_0000 && ToUint32(i) == ToUint32(x)
  {
    var u := ToUint32(x);
    if u >= 0x8000_0000 then u - TWO_TO_THE_32 else u
  }

  /** The low n bits of both, bit by bit. */
  function AndBits(a: nat, b: nat, n: nat): nat {
    if n == 0 then 0 else (a % 2) * (b % 2) + 2 * AndBits(a / 2, b / 2, n - 1)
  }

  /** x & y */
  function And32(x: int, y: int): int {
    ToInt32(AndBits(ToUint32(x), ToUint32(y), 32))
  }

  /** x << s */
  function ShiftLeft32(x: int, s: nat): int {
    ToInt32(ToInt32(x) * Pow2(s))
  }

  /** x >>> 0 */
  function Unsigned32(x: int): int {
    ToUint32(x)
  }

  function Mask(value: int, prefix: nat): int
    requires prefix <= 32
  {
    if prefix == 0 then 0 else And32(value, Unsigned32(ShiftLeft32(0xffff_ffff, 32 - prefix)))
  }

  // ---- What masking means ----

  lemma DivideTwice(a: nat, k: nat)
    requires k >= 1
    ensures (a / 2) / k == a / (2 * k)
  {
    var q := a / (2 * k);
    var r := a % (2 * k);
    assert a == 2 * k * q + r;
    assert a / 2 == k * q + r / 2;
    QuotientIs(a / 2, k, q, r / 2);
  }

  lemma {:induction false} AndWithOnes(a: nat, n: nat)
    requires a < Pow2(n)
    ensures AndBits(a, Pow2(n) - 1, n) == a
  {
    if n > 0 {
      assert (Pow2(n) - 1) / 2 == Pow2(n - 1) - 1 && (Pow2(n) - 1) % 2 == 1;
      AndWithOnes(a / 2, n - 1);
    }
  }

  lemma {:induction false} PowersGrow(s: nat, n: nat)
    requires s <= n
    ensures Pow2(s) <= Pow2(n)
    decreases n - s
  {
    if s < n {
      PowersGrow(s, n - 1);
    }
  }

  lemma AndEven(a: nat, half: nat, n: nat)
    requires n > 0
    ensures AndBits(a, 2 * half, n) == 2 * AndBits(a / 2, half, n - 1)
  {
    assert 2 * half / 2 == half && 2 * half % 2 == 0;
  }

  lemma TwiceRounded(q: int, k: nat)
    ensures q * (2 * k) == 2 * (q * k)
  {
  }

  /** A block of ones above s zeros clears the low s bits: it rounds down to a multiple of 2^s. */
  lemma {:induction false} AndClearsLowBits(a: nat, s: nat, n: nat)
    requires s <= n && a < Pow2(n) && Pow2(s) <= Pow2(n)
    ensures AndBits(a, Pow2(n) - Pow2(s), n) == a / Pow2(s) * Pow2(s)
    decreases n
  {
    hide AndBits;
    if s == 0 {
      AndWithOnes(a, n);
    } else {
      PowersGrow(s - 1, n - 1);
      var k := Pow2(s - 1);
      AndEven(a, Pow2(n - 1) - k, n);
      AndClearsLowBits(a / 2, s - 1, n - 1);
      DivideTwice(a, k);
      TwiceRounded(a / (2 * k), k);
    }
  }

  lemma Pow32()
    ensures Pow2(32) == TWO_TO_THE_32
  {
    assert Pow2(8) == 256 by {
      assert Pow2(4) == 16;
    }
    assert Pow2(16) == 65_536 by {
      assert Pow2(12) == 4096;
    }
    assert Pow2(24) == 0x100_0000 by {
      assert Pow2(20) == 0x10_0000;
    }
    assert Pow2(28) == 0x1000_0000;
  }

  /** 0xffffffff is -1 to the shift, and the unsigned result is a block of ones above s zeros. */
  lemma ShiftedOnes(s: nat)
    requires s < 32
    ensures Unsigned32(ShiftLeft32(0xffff_ffff, s)) == TWO_TO_THE_32 - Pow2(s)
  {
    Pow32();
    PowersGrow(s, 31);
    assert ToInt32(0xffff_ffff) == -1;
    assert ToUint32(0 - Pow2(s)) == TWO_TO_THE_32 - Pow2(s);
  }

  /** The greatest multiple of k up to u. */
  function RoundDown(u: nat, k: nat): int
    requires k >= 1
  {
    u / k * k
  }

  /** Despite the signed result, masking rounds the address down to a multiple of 2^(32 - prefix). */
  lemma MaskMeans(value: int, prefix: nat)
    requires prefix <= 32
    ensures var k := Pow2(32 - prefix); Mask(value, prefix) == ToInt32(RoundDown(ToUint32(value), k))
  {
    hide Pow2, AndBits, ShiftLeft32, ToInt32;
    Pow32();
    var u := ToUint32(value);
    if prefix == 0 {
      assert u / TWO_TO_THE_32 == 0;
    } else {
      var s := 32 - prefix;
      PowersGrow(s, 32);
      ShiftedOnes(s);
      AndClearsLowBits(u, s, 32);
    }
  }

  lemma RoundingBounds(u: nat, k: nat)
    requires k >= 1
    ensures 0 <= RoundDown(u, k) <= u
    ensures RoundDown(u, k) / k == u / k
  {
    assert u == k * (u / k) + u % k;
    NonNegativeProduct(k, u / k);
    QuotientIs(u / k * k, k, u / k, 0);
  }

  lemma SameRounding(u: nat, v: nat, k: nat)
    requires k >= 1
    ensures u / k == v / k ==> RoundDown(u, k) == RoundDown(v, k)
  {
  }

  lemma SameWord(u: nat, v: nat)
    requires u < TWO_TO_THE_32 && v < TWO_TO_THE_32
    ensures ToInt32(u) == ToInt32(v) <==> u == v
  {
  }

  /** Two masked addresses are equal exactly when the addresses agree above the prefix. */
  lemma MasksAgreeIff(a: int, b: int, prefix: nat)
    requires prefix <= 32
    ensures Mask(a, prefix) == Mask(b, prefix) <==> ToUint32(a) / Pow2(32 - prefix) == ToUint32(b) / Pow2(32 - prefix)
  {
    hide Mask;
    var k := Pow2(32 - prefix);
    var u, v := ToUint32(a), ToUint32(b);
    MaskMeans(a, prefix);
    MaskMeans(b, prefix);
    RoundingBounds(u, k);
    RoundingBounds(v, k);
    SameWord(RoundDown(u, k), RoundDown(v, k));
    SameRounding(u, v, k);
  }

  /** Masking twice is masking once, though the first result may be negative. */
  lemma MaskIsIdempotent(value: int, prefix: nat)
    requires prefix <= 32
    ensures Mask(Mask(value, prefix), prefix) == Mask(value, prefix)
  {
    hide Mask;
    var k := Pow2(32 - prefix);
    var u := ToUint32(value);
    MaskMeans(value, prefix);
    RoundingBounds(u, k);
    assert ToUint32(Mask(value, prefix)) == RoundDown(u, k);
    MasksAgreeIff(Mask(value, prefix), value, prefix);
  }

  // ---- Addresses ----

  /** Number(s) when it is an integer, parseInt(s, 10), and trim. */
  datatype Runtime = Runtime(number: string -> Option<int>, parseInt: string -> Option<int>, trim: string -> string)

  predicate Octet(js: Runtime, part: string) {
    js.number(part).Some? && 0 <= js.number(part).value <= 255
  }

  function Digits(js: Runtime, parts: seq<string>): (r: nat)
    requires forall i :: 0 <= i < |parts| ==> Octet(js, parts[i])
  {
    if parts == [] then 0
    else
      assert Octet(js, parts[|parts| - 1]);
      Digits(js, parts[..|parts| - 1]) * 256 + js.number(parts[|parts| - 1]).value
  }

  function Ipv4ToLong(js: Runtime, ip: string): (r: Option<nat>)
    ensures r.Some? ==> r.value < TWO_TO_THE_32
  {
    var parts := Split(ip, '.');
    if |parts| != 4 || exists i :: 0 <= i < 4 && !Octet(js, parts[i]) then None
    else Some(ToUint32(Digits(js, parts)))
  }

  method ParseIpv4(js: Runtime, ip: string) returns (r: Option<nat>)
    ensures r == Ipv4ToLong(js, ip)
  {
    var parts := Split(ip, '.');
    if |parts| != 4 {
      return None;
    }
    var result := 0;
    for i := 0 to |parts|
      invariant forall j :: 0 <= j < i ==> Octet(js, parts[j])
      invariant result == Digits(js, parts[..i])
    {
      var octet := js.number(parts[i]);
      if octet.None? || octet.value < 0 || octet.value > 255 {
        return None;
      }
      assert parts[..i + 1][..i] == parts[..i];
      result := result * 256 + octet.value;
    }
    assert parts[..|parts|] == parts;
    r := Some(ToUint32(result));
  }

  function Quad(a: nat, b: nat, c: nat, d: nat): nat {
    ((a * 256 + b) * 256 + c) * 256 + d
  }

  predicate IsByte(x: nat) {
    x <= 255
  }

  lemma QuadDigits(a: nat, b: nat, c: nat, d: nat)
    requires IsByte(a) && IsByte(b) && IsByte(c) && IsByte(d)
    ensures var q := Quad(a, b, c, d);
            q < TWO_TO_THE_32 && q % 256 == d && q / 256 % 256 == c && q / 65_536 == a * 256 + b && q / 0x100_0000 == a
  {
  }

  /** Four octets are recovered from their number, so two addresses never share one. */
  lemma QuadIsInjective(a: nat, b: nat, c: nat, d: nat, a': nat, b': nat, c': nat, d': nat)
    requires IsByte(a) && IsByte(b) && IsByte(c) && IsByte(d) && IsByte(a') && IsByte(b') && IsByte(c') && IsByte(d')
    requires Quad(a, b, c, d) == Quad(a', b', c', d')
    ensures a == a' && b == b' && c == c' && d == d'
  {
    QuadDigits(a, b, c, d);
    QuadDigits(a', b', c', d');
  }

  ghost predicate Spells(js: Runtime, ip: string, a: nat, b: nat, c: nat, d: nat) {
    && IsByte(a) && IsByte(b) && IsByte(c) && IsByte(d)
    && var parts := Split(ip, '.');
    && |parts| == 4 && js.number(parts[0]) == Some(a) && js.number(parts[1]) == Some(b)
    && js.number(parts[2]) == Some(c) && js.number(parts[3]) == Some(d)
  }

  lemma SpelledQuad(js: Runtime, ip: string, a: nat, b: nat, c: nat, d: nat)
    requires Spells(js, ip, a, b, c, d)
    ensures Ipv4ToLong(js, ip) == Some(Quad(a, b, c, d))
  {
    var parts := Split(ip, '.');
    assert parts[..3][..2] == parts[..2] && parts[..3][..2][..1] == parts[..1];
    assert Digits(js, parts[..1]) == a;
    assert Digits(js, parts[..2]) == a * 256 + b;
    assert Digits(js, parts[..3]) == (a * 256 + b) * 256 + c;
    assert parts[..4] == parts;
    QuadDigits(a, b, c, d);
  }

  // ---- Ranges ----

  datatype Range = Range(network: int, prefix: nat)

  /** The network as configured, before it is masked. */
  function Configured(js: Runtime, cidr: string): Option<Range> {
    var parts := Split(cidr, '/');
    var network := Ipv4ToLong(js, parts[0]);
    var prefix := if |parts| < 2 then Some(32) else js.parseInt(parts[1]);
    if network.None? || prefix.None? || prefix.value < 0 || prefix.value > 32 then None
    else Some(Range(network.value, prefix.value))
  }

  function ParseCidr(js: Runtime, cidr: string): (r: Option<Range>)
    ensures r.Some? ==> r.value.prefix <= 32
  {
    var range := Configured(js, cidr);
    if range.None? then None else Some(Range(Mask(range.value.network, range.value.prefix), range.value.prefix))
  }

  function ParseEntries(js: Runtime, entries: seq<string>): (r: seq<Range>)
    ensures forall x :: x in r ==> x.prefix <= 32
  {
    if entries == [] then []
    else
      var trimmed := js.trim(entries[0]);
      var range := if trimmed == "" then None else ParseCidr(js, trimmed);
      (if range.Some? then [range.value] else []) + ParseEntries(js, entries[1..])
  }

  /** The threat-feed setting, a comma-separated list; what does not parse is dropped. */
  function ParseBadRanges(js: Runtime, raw: string): (r: seq<Range>)
    ensures forall x :: x in r ==> x.prefix <= 32
  {
    ParseEntries(js, Split(raw, ','))
  }

  predicate IsInBadRange(js: Runtime, badRanges: seq<Range>, ip: string) {
    var addr := Ipv4ToLong(js, ip);
    addr.Some?
    && exists r :: r in badRanges && r.prefix <= 32 && Mask(addr.value, r.prefix) == Mask(r.network, r.prefix)
  }

  /** The address and the network agree in their first prefix bits. */
  ghost predicate Covers(range: Range, addr: nat) {
    range.prefix <= 32 && range.network >= 0
        && addr / Pow2(32 - range.prefix) == range.network / Pow2(32 - range.prefix)
  }

  /** An entry of the setting that parses to a range covering the address. */
  ghost predicate Catches(js: Runtime, entry: string, addr: nat) {
    var trimmed := js.trim(entry);
    trimmed != "" && Configured(js, trimmed).Some? && Covers(Configured(js, trimmed).value, addr)
  }

  lemma ParsedCovers(js: Runtime, cidr: string, addr: nat)
    requires addr < TWO_TO_THE_32 && Configured(js, cidr).Some?
    ensures var r := ParseCidr(js, cidr).value;
      Mask(addr, r.prefix) == Mask(r.network, r.prefix) <==> Covers(Configured(js, cidr).value, addr)
  {
    hide Mask, Pow2;
    var range := Configured(js, cidr).value;
    MaskIsIdempotent(range.network, range.prefix);
    MasksAgreeIff(addr, range.network, range.prefix);
  }

  ghost predicate Hits(r: Range, addr: nat) {
    r.prefix <= 32 && Mask(addr, r.prefix) == Mask(r.network, r.prefix)
  }

  lemma {:induction false} EntriesCatch(js: Runtime, entries: seq<string>, addr: nat)
    requires addr < TWO_TO_THE_32
    ensures (exists r :: r in ParseEntries(js, entries) && Hits(r, addr))
      <==> exists e :: e in entries && Catches(js, e, addr)
  {
    if entries != [] {
      hide Mask, Covers, Configured;
      EntriesCatch(js, entries[1..], addr);
      FirstCatches(js, entries[0], addr);
      assert entries == [entries[0]] + entries[1..];
    }
  }

  lemma FirstCatches(js: Runtime, entry: string, addr: nat)
    requires addr < TWO_TO_THE_32
    ensures var trimmed := js.trim(entry);
            Catches(js, entry, addr) <==>
            trimmed != "" && ParseCidr(js, trimmed).Some? && Hits(ParseCidr(js, trimmed).value, addr)
  {
    var trimmed := js.trim(entry);
    if Configured(js, trimmed).Some? {
      ParsedCovers(js, trimmed, addr);
    }
  }

  /**
   An address is in a bad range exactly when some entry of the setting agrees with it after division by 2^(32 -
   prefix).
   */
  lemma InBadRangeIff(js: Runtime, raw: string, ip: string)
    ensures IsInBadRange(js, ParseBadRanges(js, raw), ip)
       <==> Ipv4ToLong(js, ip).Some? && exists e :: e in Split(raw, ',') && Catches(js, e, Ipv4ToLong(js, ip).value)
  {
    var addr := Ipv4ToLong(js, ip);
    if addr.Some? {
      EntriesCatch(js, Split(raw, ','), addr.value);
      forall r | r in ParseBadRanges(js, raw)
          ensures Hits(r, addr.value) <==> Mask(addr.value, r.prefix) == Mask(r.network, r.prefix) {
      }
    }
  }

  // ---- Dotted quads ----

  function Dotted(a: nat, b: nat, c: nat, d: nat): string {
    Shown(a) + ['.'] + (Shown(b) + ['.'] + (Shown(c) + ['.'] + Shown(d)))
  }

  ghost predicate Canonical(ip: string) {
    exists a, b, c, d: nat :: IsByte(a) && IsByte(b) && IsByte(c) && IsByte(d) && ip == Dotted(a, b, c, d)
  }

  /** Number() reads numerals of up to 255, leading zeros or not, as they are, and others as nothing that small. */
  ghost predicate ReadsNumerals(js: Runtime) {
    forall s :: s != "" && AllDigits(s) ==>
      if IsByte(Decimal(s)) then js.number(s) == Some(Decimal(s)) else js.number(s).None? || js.number(s).value > 255
  }

  lemma NumeralIsOctetIff(js: Runtime, s: string)
    requires ReadsNumerals(js) && s != "" && AllDigits(s)
    ensures Octet(js, s) <==> IsByte(Decimal(s))
    ensures IsByte(Decimal(s)) ==> js.number(s) == Some(Decimal(s))
  {
  }

  lemma NoDot(n: nat)
    ensures '.' !in Shown(n) && '/' !in Shown(n)
  {
    var s := Shown(n);
    forall i | 0 <= i < |s| ensures s[i] != '.' && s[i] != '/' {
      assert Digit(s[i]);
    }
  }

  lemma SplitDotted(a: nat, b: nat, c: nat, d: nat)
    ensures Split(Dotted(a, b, c, d), '.') == [Shown(a), Shown(b), Shown(c), Shown(d)]
    ensures '/' !in Dotted(a, b, c, d)
  {
    NoDot(a);
    NoDot(b);
    NoDot(c);
    NoDot(d);
    SplitFirst(Shown(a), Shown(b) + ['.'] + (Shown(c) + ['.'] + Shown(d)), '.');
    SplitFirst(Shown(b), Shown(c) + ['.'] + Shown(d), '.');
    SplitFirst(Shown(c), Shown(d), '.');
    SplitWithout(Shown(d), '.');
  }

  ghost predicate FourNumerals(parts: seq<string>) {
    |parts| == 4 && forall i :: 0 <= i < 4 ==> parts[i] != "" && AllDigits(parts[i])
  }

  ghost predicate AllBytes(parts: seq<string>)
    requires FourNumerals(parts)
  {
    forall i :: 0 <= i < 4 ==> IsByte(Decimal(parts[i]))
  }

  /** Four numerals, leading zeros or not, parse exactly when all four are bytes. */
  lemma NumeralsParseIff(js: Runtime, ip: string)
    requires ReadsNumerals(js) && FourNumerals(Split(ip, '.'))
    ensures var parts := Split(ip, '.');
            Ipv4ToLong(js, ip) ==
            if AllBytes(parts) then
                Some(Quad(Decimal(parts[0]), Decimal(parts[1]), Decimal(parts[2]), Decimal(parts[3]))) else None
  {
    hide ReadsNumerals;
    var parts := Split(ip, '.');
    forall i | 0 <= i < 4
      ensures Octet(js, parts[i]) <==> IsByte(Decimal(parts[i]))
      ensures IsByte(Decimal(parts[i])) ==> js.number(parts[i]) == Some(Decimal(parts[i]))
    {
      NumeralIsOctetIff(js, parts[i]);
    }
    if AllBytes(parts) {
      SpelledQuad(js, ip, Decimal(parts[0]), Decimal(parts[1]), Decimal(parts[2]), Decimal(parts[3]));
    }
  }

  /** A dotted quad parses exactly when all four numbers are bytes. */
  lemma DottedParsesIff(js: Runtime, a: nat, b: nat, c: nat, d: nat)
    requires ReadsNumerals(js)
    ensures Ipv4ToLong(js, Dotted(a, b, c, d)) ==
            if IsByte(a) && IsByte(b) && IsByte(c) && IsByte(d) then Some(Quad(a, b, c, d)) else None
  {
    hide ReadsNumerals;
    SplitDotted(a, b, c, d);
    DecimalOfShown(a);
    DecimalOfShown(b);
    DecimalOfShown(c);
    DecimalOfShown(d);
    NumeralsParseIff(js, Dotted(a, b, c, d));
  }

  /** Two canonical addresses with one number are the same address. */
  lemma Ipv4ToLongIsInjective(js: Runtime, x: string, y: string)
    requires ReadsNumerals(js) && Canonical(x) && Canonical(y)
    requires Ipv4ToLong(js, x) == Ipv4ToLong(js, y)
    ensures x == y
  {
    var a, b, c, d: nat :| IsByte(a) && IsByte(b) && IsByte(c) && IsByte(d) && x == Dotted(a, b, c, d);
    var a', b', c', d': nat :| IsByte(a') && IsByte(b') && IsByte(c') && IsByte(d') && y == Dotted(a', b', c', d');
    DottedParsesIff(js, a, b, c, d);
    DottedParsesIff(js, a', b', c', d');
    QuadIsInjective(a, b, c, d, a', b', c', d');
  }

  // ---- The /16 subnet ----

  predicate ShortNumeral(s: string) {
    1 <= |s| <= 3 && AllDigits(s)
  }

  /** Four groups of one to three digits, of which the first two are kept. */
  function Ipv4Subnet16(ip: string): Option<string> {
    var parts := Split(ip, '.');
    if |parts| == 4 && forall i :: 0 <= i < 4 ==> ShortNumeral(parts[i]) then
        Some(parts[0] + "." + parts[1] + ".0.0/16") else None
  }

  lemma Subnet16OfDotted(a: nat, b: nat, c: nat, d: nat)
    requires a < 1000 && b < 1000 && c < 1000 && d < 1000
    ensures Ipv4Subnet16(Dotted(a, b, c, d)) == Some(Dotted(a, b, 0, 0) + "/16")
  {
    SplitDotted(a, b, c, d);
    ShownIsShort(a);
    ShownIsShort(b);
    ShownIsShort(c);
    ShownIsShort(d);
    assert Shown(0) == "0";
    assert Dotted(a, b, 0, 0) == Shown(a) + "." + Shown(b) + ".0.0";
    assert Dotted(a, b, 0, 0) + "/16" == Shown(a) + "." + Shown(b) + ".0.0/16";
  }

  /** The pattern also accepts numerals above 255, which name no address: 999.1.1.1 has a subnet. */
  lemma SubnetWithoutAddressIff(js: Runtime, ip: string)
    requires ReadsNumerals(js) && Ipv4Subnet16(ip).Some?
    ensures Ipv4ToLong(js, ip).None? <==> exists i :: 0 <= i < 4 && Decimal(Split(ip, '.')[i]) > 255
  {
    NumeralsParseIff(js, ip);
  }

  lemma ShownOf999()
    ensures Dotted(999, 1, 1, 1) == "999.1.1.1" && Dotted(999, 1, 0, 0) + "/16" == "999.1.0.0/16"
  {
    assert Shown(9) == "9" && Shown(99) == "99" && Shown(999) == "999" && Shown(1) == "1" && Shown(0) == "0";
    hide Shown;
    assert Dotted(999, 1, 1, 1) == "999.1.1.1";
    assert Dotted(999, 1, 0, 0) == "999.1.0.0";
  }

  lemma SubnetOf999(js: Runtime)
    requires ReadsNumerals(js)
    ensures Ipv4Subnet16("999.1.1.1") == Some("999.1.0.0/16") && Ipv4ToLong(js, "999.1.1.1").None?
  {
    hide Ipv4Subnet16, Ipv4ToLong, ReadsNumerals;
    ShownOf999();
    Subnet16OfDotted(999, 1, 1, 1);
    DottedParsesIff(js, 999, 1, 1, 1);
  }

  lemma QuadSubnetCovers(a: nat, b: nat, x: nat, y: nat, z: nat, w: nat)
    requires IsByte(a) && IsByte(b) && IsByte(x) && IsByte(y) && IsByte(z) && IsByte(w)
    ensures Covers(Range(Quad(a, b, 0, 0), 16), Quad(x, y, z, w)) <==> a == x && b == y
  {
    QuadDigits(a, b, 0, 0);
    QuadDigits(x, y, z, w);
    assert Pow2(16) == 65_536 by {
      assert Pow2(8) == 256;
      assert Pow2(12) == 4096;
    }
  }

  lemma SubnetConfigures(js: Runtime, a: nat, b: nat)
    requires ReadsNumerals(js) && js.parseInt("16") == Some(16) && IsByte(a) && IsByte(b)
    ensures Configured(js, Dotted(a, b, 0, 0) + "/16") == Some(Range(Quad(a, b, 0, 0), 16))
  {
    var addr := Dotted(a, b, 0, 0);
    SplitDotted(a, b, 0, 0);
    DottedParsesIff(js, a, b, 0, 0);
    assert addr + "/16" == addr + ['/'] + "16";
    SplitFirst(addr, "16", '/');
    SplitWithout("16", '/');
  }

  lemma SameSubnetText(a: nat, b: nat, x: nat, y: nat, js: Runtime)
    requires ReadsNumerals(js) && IsByte(a) && IsByte(b) && IsByte(x) && IsByte(y)
    ensures Dotted(a, b, 0, 0) + "/16" == Dotted(x, y, 0, 0) + "/16" <==> a == x && b == y
  {
    if Dotted(a, b, 0, 0) + "/16" == Dotted(x, y, 0, 0) + "/16" {
      var s, t := Dotted(a, b, 0, 0), Dotted(x, y, 0, 0);
      assert |s + "/16"| == |t + "/16"|;
      assert s == (s + "/16")[..|s|] == (t + "/16")[..|t|] == t;
      DottedParsesIff(js, a, b, 0, 0);
      DottedParsesIff(js, x, y, 0, 0);
      QuadIsInjective(a, b, 0, 0, x, y, 0, 0);
    }
  }

  /** The subnet of one address, read as a range, covers another exactly when the other has the same subnet text. */
  lemma Subnet16Covers(js: Runtime, ip: string, other: string)
    requires ReadsNumerals(js) && js.parseInt("16") == Some(16) && Canonical(ip) && Canonical(other)
    ensures Ipv4Subnet16(ip).Some? && Configured(js, Ipv4Subnet16(ip).value).Some? && Ipv4ToLong(js, other).Some?
    ensures Covers(Configured(js, Ipv4Subnet16(ip).value).value, Ipv4ToLong(js, other).value)
      <==> Ipv4Subnet16(other) == Ipv4Subnet16(ip)
  {
    hide Covers, Configured, Ipv4Subnet16;
    var a, b, c, d: nat :| IsByte(a) && IsByte(b) && IsByte(c) && IsByte(d) && ip == Dotted(a, b, c, d);
    var x, y, z, w: nat :| IsByte(x) && IsByte(y) && IsByte(z) && IsByte(w) && other == Dotted(x, y, z, w);
    Subnet16OfDotted(a, b, c, d);
    Subnet16OfDotted(x, y, z, w);
    SubnetConfigures(js, a, b);
    DottedParsesIff(js, x, y, z, w);
    QuadSubnetCovers(a, b, x, y, z, w);
    SameSubnetText(a, b, x, y, js);
  }
}
