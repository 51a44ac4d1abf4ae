/**
 Grouping similar incidents (dashboard/src/lib/incidentGrouping.js): the key of an incident at an IP
 tolerance, and the newest-first partition by key.

 `num` stands for JavaScript's `Number` on one dotted part, with None for anything but an integer;
 every result holds whatever it reads.
 */
module IncidentGrouping {
  import opened Incidents
  import opened StableSort

  datatype Item = Item(
    id: Id, scenario: Option<string>, keyType: Option<string>, keyValue: Option<string>, updatedAt: Time)

  // ---- Decimal text ----

  const DIGITS: string := "0123456789"

  function Decimal(n: nat): (s: string)
    ensures s != ""
  {
    if n < 10 then [DIGITS[n]] else Decimal(n / 10) + [DIGITS[n % 10]]
  }

  function DigitValue(c: char): int {
    if c == '0' then 0 else if c == '1' then 1 else if c == '2' then 2 else if c == '3' then 3
    else if c == '4' then 4 else if c == '5' then 5 else if c == '6' then 6 else if c == '7' then 7
    else if c == '8' then 8 else 9
  }

  function ValueOf(s: string): int {
    if s == "" then 0 else 10 * ValueOf(s[..|s| - 1]) + DigitValue(s[|s| - 1])
  }

  lemma {:induction false} DecimalReadsBack(n: nat)
    ensures ValueOf(Decimal(n)) == n
    ensures forall c :: c in Decimal(n) ==> c in DIGITS
  {
    if n >= 10 {
      DecimalReadsBack(n / 10);
      var front := Decimal(n / 10);
      assert Decimal(n)[..|front|] == front;
    } else {
      assert [DIGITS[n]][..0] == "";
      assert DIGITS[n] in DIGITS;
    }
  }

  // ---- The key ----

  function Split(s: string, separator: char): (parts: seq<string>)
    ensures parts != []
  {
    if s == "" then [""]
    else
      var rest := Split(s[1..], separator);
      if s[0] == separator then [""] + rest else [[s[0]] + rest[0]] + rest[1..]
  }

  type Octets = seq<nat>

  function ReadOctets(num: string -> Option<int>, parts: seq<string>): (r: Option<Octets>)
    ensures r.Some? ==> |r.value| == |parts| && forall n :: n in r.value ==> n <= 255
  {
    if parts == [] then Some([])
    else
      var first, rest := num(parts[0]), ReadOctets(num, parts[1..]);
      if first.Some? && 0 <= first.value <= 255 && rest.Some? then Some([first.value as nat] + rest.value) else None
  }

  function ParseIPv4(num: string -> Option<int>, value: string): (r: Option<Octets>)
    ensures r.Some? ==> |r.value| == 4 && forall n :: n in r.value ==> n <= 255
  {
    var parts := Split(value, '.');
    if |parts| != 4 then None else ReadOctets(num, parts)
  }

  function Joined(parts: seq<string>, separator: char): string
    requires parts != []
  {
    if |parts| == 1 then parts[0] else parts[0] + [separator] + Joined(parts[1..], separator)
  }

  /** The parts are what lies between the separators: joined they give the text back, and none holds a separator. */
  lemma {:induction false} SplitParts(s: string, separator: char)
    ensures Joined(Split(s, separator), separator) == s
    ensures forall p :: p in Split(s, separator) ==> separator !in p
  {
    if s != "" {
      SplitParts(s[1..], separator);
      var rest := Split(s[1..], separator);
      if s[0] == separator {
        assert ([""] + rest)[1..] == rest;
      } else {
        var first := [s[0]] + rest[0];
        assert ([first] + rest[1..])[1..] == rest[1..];
        assert rest[0] in rest;
      }
    }
  }

  predicate IsOctet(n: Option<int>) { n.Some? && 0 <= n.value <= 255 }

  lemma {:induction false} OctetsRead(num: string -> Option<int>, parts: seq<string>)
    ensures ReadOctets(num, parts).Some? <==> forall k :: 0 <= k < |parts| ==> IsOctet(num(parts[k]))
    ensures ReadOctets(num, parts).Some? ==>
              forall k :: 0 <= k < |parts| ==> ReadOctets(num, parts).value[k] == num(parts[k]).value
  {
    if parts != [] {
      OctetsRead(num, parts[1..]);
      assert forall k :: 0 < k < |parts| ==> parts[k] == parts[1..][k - 1];
      if forall k :: 0 <= k < |parts| ==> IsOctet(num(parts[k])) {
        assert forall k :: 0 <= k < |parts[1..]| ==> parts[1..][k] == parts[k + 1];
      }
    }
  }

  /** An address is exactly four dotted parts that each read as an integer from 0 to 255, in that order. */
  lemma ParsesExactly(num: string -> Option<int>, value: string)
    ensures var parts, o := Split(value, '.'), ParseIPv4(num, value);
            && Joined(parts, '.') == value && (forall p :: p in parts ==> '.' !in p)
            && (o.Some? <==> |parts| == 4 && forall k :: 0 <= k < 4 ==> IsOctet(num(parts[k])))
            && (o.Some? ==> forall k :: 0 <= k < 4 ==> o.value[k] == num(parts[k]).value)
  {
    SplitParts(value, '.');
    OctetsRead(num, Split(value, '.'));
  }

  function Dotted(octets: Octets): string
    requires octets != []
  {
    if |octets| == 1 then Decimal(octets[0]) else Decimal(octets[0]) + "." + Dotted(octets[1..])
  }

  function OctetCount(bits: nat): (n: nat)
    ensures 1 <= n <= 4
  {
    if bits >= 32 then 4 else if bits >= 24 then 3 else if bits >= 16 then 2 else 1
  }

  function PrefixOf(octets: Octets, bits: nat): string
    requires |octets| == 4
  {
    var n := OctetCount(bits);
    Dotted(octets[..n]) + if n < 4 then ".0/" + Decimal(bits) else ""
  }

  function IpPrefixKey(num: string -> Option<int>, value: string, bits: nat): Option<string> {
    var octets := ParseIPv4(num, value);
    if octets.None? then None else Some(PrefixOf(octets.value, bits))
  }

  predicate IsIpKeyType(keyType: string) { keyType == "source.ip" || keyType == "source_ip" }

  /** The value, or the default when it is missing or empty. */
  function OrElse(value: Option<string>, default: string): string {
    if value.Some? && value.value != "" then value.value else default
  }

  function ScenarioOf(i: Item): string { OrElse(i.scenario, "no-scenario") }

  function TypeOf(i: Item): string { OrElse(i.keyType, "unknown") }

  function ValueTextOf(i: Item): string { OrElse(i.keyValue, "") }

  /** The octets an incident is grouped by, if it is keyed by a valid IPv4 address. */
  function AddressOf(num: string -> Option<int>, i: Item): (r: Option<Octets>)
    ensures r.Some? ==> |r.value| == 4 && forall n :: n in r.value ==> n <= 255
  {
    if IsIpKeyType(TypeOf(i)) then ParseIPv4(num, ValueTextOf(i)) else None
  }

  function GroupKeyFor(num: string -> Option<int>, i: Item, bits: nat): string {
    var prefixed := if IsIpKeyType(TypeOf(i)) then IpPrefixKey(num, ValueTextOf(i), bits) else None;
    if prefixed.Some? then ScenarioOf(i) + "|" + ("ip:" + prefixed.value)
    else ScenarioOf(i) + "|" + (TypeOf(i) + ":" + ValueTextOf(i))
  }

  // ---- Reading keys apart ----

  /** The text before the first `c`. */
  function UpTo(s: string, c: char): string {
    if s == "" || s[0] == c then "" else [s[0]] + UpTo(s[1..], c)
  }

  lemma {:induction false} UpToFirst(p: string, x: string, c: char)
    requires c !in p
    ensures UpTo(p + [c] + x, c) == p
  {
    if p == "" {
      assert p + [c] + x == [c] + x;
    } else {
      UpToFirst(p[1..], x, c);
      assert (p + [c] + x)[1..] == p[1..] + [c] + x;
    }
  }

  lemma SplitAtFirst(p: string, x: string, q: string, y: string, c: char)
    requires c !in p && c !in q && p + [c] + x == q + [c] + y
    ensures p == q && x == y
  {
    UpToFirst(p, x, c);
    UpToFirst(q, y, c);
    assert x == (p + [c] + x)[|p| + 1..] && y == (q + [c] + y)[|q| + 1..];
  }

  function Count(s: string, c: char): nat {
    if s == "" then 0 else (if s[0] == c then 1 else 0) + Count(s[1..], c)
  }

  lemma {:induction false} CountAppend(s: string, t: string, c: char)
    ensures Count(s + t, c) == Count(s, c) + Count(t, c)
  {
    if s == "" {
      assert s + t == t;
    } else {
      CountAppend(s[1..], t, c);
      assert (s + t)[1..] == s[1..] + t;
    }
  }

  lemma {:induction false} CountIsMembership(s: string, c: char)
    ensures c in s <==> Count(s, c) > 0
  {
    if s != "" { CountIsMembership(s[1..], c); }
  }

  lemma DecimalInjective(a: nat, b: nat)
    requires Decimal(a) == Decimal(b)
    ensures a == b
  {
    DecimalReadsBack(a);
    DecimalReadsBack(b);
  }

  lemma {:induction false} DottedInjective(a: Octets, b: Octets)
    requires |a| == |b| > 0 && Dotted(a) == Dotted(b)
    ensures a == b
  {
    DecimalReadsBack(a[0]);
    DecimalReadsBack(b[0]);
    if |a| == 1 {
      DecimalInjective(a[0], b[0]);
    } else {
      SplitAtFirst(Decimal(a[0]), Dotted(a[1..]), Decimal(b[0]), Dotted(b[1..]), '.');
      DecimalInjective(a[0], b[0]);
      DottedInjective(a[1..], b[1..]);
      assert a == [a[0]] + a[1..] && b == [b[0]] + b[1..];
    }
  }

  /** Prefix keys tell exactly the leading octets. */
  lemma PrefixTellsOctets(a: Octets, b: Octets, bits: nat)
    requires |a| == 4 && |b| == 4
    ensures PrefixOf(a, bits) == PrefixOf(b, bits) <==> a[..OctetCount(bits)] == b[..OctetCount(bits)]
  {
    var n := OctetCount(bits);
    var tail := if n < 4 then ".0/" + Decimal(bits) else "";
    var l, r := Dotted(a[..n]), Dotted(b[..n]);
    if l + tail == r + tail {
      assert |l| == |r|;
      assert l == (l + tail)[..|l|] && r == (r + tail)[..|l|];
      DottedInjective(a[..n], b[..n]);
    }
  }

  /** The 32-bit number of an address. */
  function Address(o: Octets): nat
    requires |o| == 4
  {
    ((o[0] * 256 + o[1]) * 256 + o[2]) * 256 + o[3]
  }

  function HostSize(bits: nat): nat {
    if bits == 32 then 1 else if bits == 24 then 256 else 65536
  }

  /** At 32, 24 and 16 bits two valid addresses share a key exactly when they agree divided by 2^(32 - bits). */
  lemma PrefixIsDivision(num: string -> Option<int>, v: string, w: string, bits: nat)
    requires ParseIPv4(num, v).Some? && ParseIPv4(num, w).Some? && (bits == 32 || bits == 24 || bits == 16)
    ensures IpPrefixKey(num, v, bits) == IpPrefixKey(num, w, bits) <==>
              Address(ParseIPv4(num, v).value) / HostSize(bits) == Address(ParseIPv4(num, w).value) / HostSize(bits)
  {
    var a, b := ParseIPv4(num, v).value, ParseIPv4(num, w).value;
    PrefixTellsOctets(a, b, bits);
    LeadingIsDivision(a, b, bits);
  }

  lemma LeadingIsDivision(a: Octets, b: Octets, bits: nat)
    requires |a| == 4 && |b| == 4 && (forall n :: n in a ==> n <= 255) && (forall n :: n in b ==> n <= 255)
    requires bits == 32 || bits == 24 || bits == 16
    ensures a[..OctetCount(bits)] == b[..OctetCount(bits)] <==>
              Address(a) / HostSize(bits) == Address(b) / HostSize(bits)
  {
    SameLeading(a, b, OctetCount(bits));
    assert a[0] in a && a[1] in a && a[2] in a && a[3] in a && b[0] in b && b[1] in b && b[2] in b && b[3] in b;
    if bits == 32 {
      AddressTells(a, b);
    } else if bits == 24 {
      Quotients(a);
      Quotients(b);
      SameTriple(a[0], a[1], a[2], b[0], b[1], b[2]);
    } else {
      Quotients(a);
      Quotients(b);
      SameDigits(a[0], a[1], b[0], b[1]);
    }
  }

  lemma AddressTells(a: Octets, b: Octets)
    requires |a| == 4 && |b| == 4 && a[1] <= 255 && a[2] <= 255 && a[3] <= 255 && b[1] <= 255 && b[2] <= 255
    requires b[3] <= 255
    ensures Address(a) / 1 == Address(b) / 1 <==> a[0] == b[0] && a[1] == b[1] && a[2] == b[2] && a[3] == b[3]
  {
    SameTriple(a[0], a[1], a[2], b[0], b[1], b[2]);
    SameDigits((a[0] * 256 + a[1]) * 256 + a[2], a[3], (b[0] * 256 + b[1]) * 256 + b[2], b[3]);
  }

  lemma SameTriple(p: nat, x: nat, u: nat, q: nat, y: nat, v: nat)
    requires x <= 255 && y <= 255 && u <= 255 && v <= 255
    ensures (p * 256 + x) * 256 + u == (q * 256 + y) * 256 + v <==> p == q && x == y && u == v
  {
    SameDigits(p, x, q, y);
    SameDigits(p * 256 + x, u, q * 256 + y, v);
  }

  lemma SameLeading(a: Octets, b: Octets, n: nat)
    requires |a| == |b| == 4 && n <= 4
    ensures a[..n] == b[..n] <==> forall k :: 0 <= k < n ==> a[k] == b[k]
  {
    assert forall k :: 0 <= k < n ==> a[..n][k] == a[k] && b[..n][k] == b[k];
  }

  lemma SameDigits(p: nat, x: nat, q: nat, y: nat)
    requires x <= 255 && y <= 255
    ensures p * 256 + x == q * 256 + y <==> p == q && x == y
  {
  }

  lemma Quotients(o: Octets)
    requires |o| == 4 && o[1] <= 255 && o[2] <= 255 && o[3] <= 255
    ensures Address(o) / 256 == (o[0] * 256 + o[1]) * 256 + o[2]
    ensures Address(o) / 65536 == o[0] * 256 + o[1]
  {
  }

  // ---- A finer tolerance refines a coarser one ----

  /** Scenario ids are free of '|', and no key type is literally named "ip". */
  predicate Plain(i: Item) { '|' !in ScenarioOf(i) && TypeOf(i) != "ip" }

  lemma {:induction false} DottedLacks(o: Octets, c: char)
    requires o != [] && c !in DIGITS && c != '.'
    ensures c !in Dotted(o)
  {
    DecimalReadsBack(o[0]);
    if |o| > 1 { DottedLacks(o[1..], c); }
  }

  lemma PrefixLacks(o: Octets, bits: nat, c: char)
    requires |o| == 4 && c !in DIGITS && c != '.' && c != '/'
    ensures c !in PrefixOf(o, bits)
  {
    DottedLacks(o[..OctetCount(bits)], c);
    DecimalReadsBack(bits);
  }

  lemma ScenarioTold(s: string, x: string, t: string, y: string)
    requires '|' !in s && '|' !in t
    ensures s + "|" + x == t + "|" + y <==> s == t && x == y
  {
    if s + "|" + x == t + "|" + y { SplitAtFirst(s, x, t, y, '|'); }
  }

  /** An address key is never the key of an incident without an address: it has one colon, after "ip". */
  lemma AddressKeysStandApart(o: Octets, bits: nat, keyType: string, value: string)
    requires |o| == 4 && keyType != "ip"
    ensures "ip:" + PrefixOf(o, bits) != keyType + ":" + value
  {
    var p := PrefixOf(o, bits);
    assert "ip:" + p == "ip" + ":" + p;
    PrefixLacks(o, bits, ':');
    if ':' in keyType {
      CountIsMembership(keyType, ':');
      CountIsMembership(p, ':');
      CountAppend("ip:", p, ':');
      CountAppend(keyType + ":", value, ':');
      CountAppend(keyType, ":", ':');
      assert Count("ip:", ':') == 1 by { assert "ip:"[1..] == "p:" && "p:"[1..] == ":" && ":"[1..] == ""; }
      assert Count(":", ':') == 1 by { assert ":"[1..] == ""; }
    } else {
      UpToFirst("ip", p, ':');
      UpToFirst(keyType, value, ':');
    }
  }

  /** Same key exactly when: same scenario, and the same leading octets, or no address in either and the same text. */
  lemma KeysTold(num: string -> Option<int>, a: Item, b: Item, bits: nat)
    requires Plain(a) && Plain(b)
    ensures GroupKeyFor(num, a, bits) == GroupKeyFor(num, b, bits) <==>
              && ScenarioOf(a) == ScenarioOf(b)
              && AddressOf(num, a).Some? == AddressOf(num, b).Some?
              && (if AddressOf(num, a).Some? && AddressOf(num, b).Some?
                  then AddressOf(num, a).value[..OctetCount(bits)] == AddressOf(num, b).value[..OctetCount(bits)]
                  else TypeOf(a) + ":" + ValueTextOf(a) == TypeOf(b) + ":" + ValueTextOf(b))
  {
    var x, y := AddressOf(num, a), AddressOf(num, b);
    var s := if x.Some? then "ip:" + PrefixOf(x.value, bits) else TypeOf(a) + ":" + ValueTextOf(a);
    var t := if y.Some? then "ip:" + PrefixOf(y.value, bits) else TypeOf(b) + ":" + ValueTextOf(b);
    ScenarioTold(ScenarioOf(a), s, ScenarioOf(b), t);
    if x.Some? && y.Some? {
      PrefixTellsOctets(x.value, y.value, bits);
      SamePrefixText(PrefixOf(x.value, bits), PrefixOf(y.value, bits));
    } else if x.Some? {
      AddressKeysStandApart(x.value, bits, TypeOf(b), ValueTextOf(b));
    } else if y.Some? {
      AddressKeysStandApart(y.value, bits, TypeOf(a), ValueTextOf(a));
    }
  }

  /** The value, or the default when it is missing or empty. */
  function Named(value: Option<string>, default: string): string {
    match value
    case None => default
    case Some(text) => if text == "" then default else text
  }

  /** Keyed by an address: one of the two address types, and four dotted parts that read as 0 to 255. */
  predicate Addressed(num: string -> Option<int>, i: Item) {
    && Named(i.keyType, "unknown") in ["source.ip", "source_ip"]
    && var parts := Split(Named(i.keyValue, ""), '.');
       && |parts| == 4 && IsOctet(num(parts[0])) && IsOctet(num(parts[1]))
       && IsOctet(num(parts[2])) && IsOctet(num(parts[3]))
  }

  /** One octet at any tolerance, two from 16 bits, three from 24 and all from 32. */
  predicate SameRange(num: string -> Option<int>, a: seq<string>, b: seq<string>, bits: nat)
    requires |a| == |b| == 4
  {
    && num(a[0]) == num(b[0]) && (bits >= 16 ==> num(a[1]) == num(b[1]))
    && (bits >= 24 ==> num(a[2]) == num(b[2])) && (bits >= 32 ==> num(a[3]) == num(b[3]))
  }

  lemma AddressRead(num: string -> Option<int>, i: Item)
    ensures Addressed(num, i) <==> AddressOf(num, i).Some?
    ensures var parts := Split(Named(i.keyValue, ""), '.');
            Addressed(num, i) ==> forall k :: 0 <= k < 4 ==> num(parts[k]) == Some(AddressOf(num, i).value[k])
  {
    ParsesExactly(num, ValueTextOf(i));
    assert Named(i.keyValue, "") == ValueTextOf(i) && Named(i.keyType, "unknown") == TypeOf(i);
  }

  /**
   Two incidents are similar exactly when their scenarios agree and both are keyed by addresses of one range at the
   tolerance, or neither is and their key types and values read the same.
   */
  lemma SimilarExactly(num: string -> Option<int>, a: Item, b: Item, bits: nat)
    requires Plain(a) && Plain(b)
    ensures GroupKeyFor(num, a, bits) == GroupKeyFor(num, b, bits) <==>
              && Named(a.scenario, "no-scenario") == Named(b.scenario, "no-scenario")
              && (Addressed(num, a) <==> Addressed(num, b))
              && if Addressed(num, a) && Addressed(num, b)
                 then SameRange(num, Split(Named(a.keyValue, ""), '.'), Split(Named(b.keyValue, ""), '.'), bits)
                 else Named(a.keyType, "unknown") + ":" + Named(a.keyValue, "") ==
                      Named(b.keyType, "unknown") + ":" + Named(b.keyValue, "")
  {
    KeysTold(num, a, b, bits);
    AddressRead(num, a);
    AddressRead(num, b);
    if Addressed(num, a) && Addressed(num, b) {
      SameLeading(AddressOf(num, a).value, AddressOf(num, b).value, OctetCount(bits));
    }
  }

  lemma SamePrefixText(p: string, q: string)
    ensures "ip:" + p == "ip:" + q <==> p == q
  {
    assert ("ip:" + p)[3..] == p && ("ip:" + q)[3..] == q;
  }

  /** An incident with an address and one without share a key. */
  predicate Mixed(num: string -> Option<int>, a: Item, b: Item, bits: nat) {
    AddressOf(num, a).Some? != AddressOf(num, b).Some? && GroupKeyFor(num, a, bits) == GroupKeyFor(num, b, bits)
  }

  lemma PlainNeverMixed(num: string -> Option<int>, a: Item, b: Item, bits: nat)
    requires Plain(a) && Plain(b)
    ensures !Mixed(num, a, b, bits)
  {
    KeysTold(num, a, b, bits);
  }

  /** The last '|' of an address key comes right before "ip:", whatever the scenario is called. */
  lemma LastBarTold(s: string, p: string, t: string, q: string)
    requires '|' !in p && '|' !in q
    ensures s + "|" + ("ip:" + p) == t + "|" + ("ip:" + q) <==> s == t && p == q
  {
    var l, r := s + "|" + ("ip:" + p), t + "|" + ("ip:" + q);
    BarNotLater(s, p, t, q);
    BarNotLater(t, q, s, p);
    if l == r {
      assert l[..|s|] == s && r[..|t|] == t;
      assert l[|s| + 4..] == p && r[|t| + 4..] == q;
    }
  }

  lemma BarNotLater(s: string, p: string, t: string, q: string)
    requires '|' !in p
    ensures |s| < |t| ==> s + "|" + ("ip:" + p) != t + "|" + ("ip:" + q)
  {
    var l, r := s + "|" + ("ip:" + p), t + "|" + ("ip:" + q);
    if |s| < |t| && |l| == |r| {
      assert l[|t|] == ("|ip:" + p)[|t| - |s|];
      assert r[|t|] == '|';
    }
  }

  /** The prefix text changes with the tolerance, except that all of 32 bits and more are alike. */
  lemma PrefixMoves(o: Octets, fine: nat, coarse: nat)
    requires |o| == 4 && coarse <= fine
    ensures PrefixOf(o, fine) == PrefixOf(o, coarse) <==> fine == coarse || coarse >= 32
  {
    DottedLacks(o[..OctetCount(fine)], '/');
    DottedLacks(o[..OctetCount(coarse)], '/');
    if coarse < 32 <= fine {
      assert '/' in PrefixOf(o, coarse) by { assert '/' in ".0/"; }
    } else if fine < 32 && PrefixOf(o, fine) == PrefixOf(o, coarse) {
      var p, q := Dotted(o[..OctetCount(fine)]) + ".0", Dotted(o[..OctetCount(coarse)]) + ".0";
      assert PrefixOf(o, fine) == p + ['/'] + Decimal(fine) && PrefixOf(o, coarse) == q + ['/'] + Decimal(coarse);
      SplitAtFirst(p, Decimal(fine), q, Decimal(coarse), '/');
      DecimalInjective(fine, coarse);
    }
  }

  lemma AddressesRefine(s: string, x: Octets, t: string, y: Octets, fine: nat, coarse: nat)
    requires |x| == 4 && |y| == 4 && coarse <= fine
    requires s + "|" + ("ip:" + PrefixOf(x, fine)) == t + "|" + ("ip:" + PrefixOf(y, fine))
    ensures s + "|" + ("ip:" + PrefixOf(x, coarse)) == t + "|" + ("ip:" + PrefixOf(y, coarse))
  {
    PrefixLacks(x, fine, '|');
    PrefixLacks(y, fine, '|');
    LastBarTold(s, PrefixOf(x, fine), t, PrefixOf(y, fine));
    PrefixTellsOctets(x, y, fine);
    PrefixTellsOctets(x, y, coarse);
    var n, m := OctetCount(coarse), OctetCount(fine);
    assert x[..n] == x[..m][..n] && y[..n] == y[..m][..n];
  }

  lemma AddressMovesAway(s: string, x: Octets, key: string, fine: nat, coarse: nat)
    requires |x| == 4 && coarse <= fine && s + "|" + ("ip:" + PrefixOf(x, fine)) == key
    ensures s + "|" + ("ip:" + PrefixOf(x, coarse)) == key <==> coarse == fine || coarse >= 32
  {
    PrefixMoves(x, fine, coarse);
    var p, q := PrefixOf(x, fine), PrefixOf(x, coarse);
    assert (s + "|" + ("ip:" + p))[|s| + 4..] == p && (s + "|" + ("ip:" + q))[|s| + 4..] == q;
  }

  /**
   Two incidents together at a finer tolerance stay together at a coarser one exactly when they are not a mixed
   pair.
   */
  lemma StayTogetherExactly(num: string -> Option<int>, a: Item, b: Item, fine: nat, coarse: nat)
    requires coarse <= fine && GroupKeyFor(num, a, fine) == GroupKeyFor(num, b, fine)
    ensures GroupKeyFor(num, a, coarse) == GroupKeyFor(num, b, coarse) <==>
              coarse == fine || coarse >= 32 || !Mixed(num, a, b, fine)
  {
    var x, y := AddressOf(num, a), AddressOf(num, b);
    if x.Some? && y.Some? {
      AddressesRefine(ScenarioOf(a), x.value, ScenarioOf(b), y.value, fine, coarse);
    } else if x.Some? {
      AddressMovesAway(ScenarioOf(a), x.value, GroupKeyFor(num, b, fine), fine, coarse);
    } else if y.Some? {
      AddressMovesAway(ScenarioOf(b), y.value, GroupKeyFor(num, a, fine), fine, coarse);
    }
  }

  const ADDRESSED: Item := Item(1, Some("rule"), Some("source.ip"), Some("0.0.0.0"), 0)

  const LOOKALIKE: Item := Item(2, Some("rule"), Some("ip"), Some("0.0.0.0/24"), 0)

  /** A key type named "ip" with a range for its value joins an address at 24 bits and leaves it at 16. */
  lemma LookalikeBreaksRefinement(num: string -> Option<int>)
    requires num("0") == Some(0)
    ensures GroupKeyFor(num, ADDRESSED, 24) == GroupKeyFor(num, LOOKALIKE, 24)
    ensures GroupKeyFor(num, ADDRESSED, 16) != GroupKeyFor(num, LOOKALIKE, 16)
  {
    ZeroAddress(num);
    ZeroPrefix();
    StayTogetherExactly(num, ADDRESSED, LOOKALIKE, 24, 16);
  }

  lemma ZeroAddress(num: string -> Option<int>)
    requires num("0") == Some(0)
    ensures ParseIPv4(num, "0.0.0.0") == Some([0, 0, 0, 0])
  {
    var one, two, three := ["0"], ["0", "0"], ["0", "0", "0"];
    SplitZero();
    SplitAfterZero("0");
    SplitAfterZero("0.0");
    SplitAfterZero("0.0.0");
    assert Split("0.0", '.') == two && Split("0.0.0", '.') == three;
    ZeroOctet(num, []);
    ZeroOctet(num, one);
    ZeroOctet(num, two);
    ZeroOctet(num, three);
    assert ["0"] + [] == one && ["0"] + one == two && ["0"] + two == three;
    var four := ["0"] + three;
    assert "0." + "0.0.0" == "0.0.0.0";
    assert Split("0.0.0.0", '.') == four && |four| == 4;
    var none: Octets := [];
    assert ReadOctets(num, []) == Some(none) && [0] + none == [0];
    assert ReadOctets(num, one).value == [0];
    assert ReadOctets(num, two).value == [0, 0];
    assert ReadOctets(num, three).value == [0, 0, 0];
    assert ReadOctets(num, four).value == [0, 0, 0, 0];
  }

  lemma SplitZero()
    ensures Split("0", '.') == ["0"]
  {
    assert "0"[1..] == "" && Split("", '.') == [""];
    assert [""][1..] == [] && ['0'] + "" == "0";
  }

  lemma SplitAfterZero(rest: string)
    ensures Split("0." + rest, '.') == ["0"] + Split(rest, '.')
  {
    var parts := Split(rest, '.');
    assert ("0." + rest)[1..] == "." + rest && ("." + rest)[1..] == rest;
    assert Split("." + rest, '.') == [""] + parts;
    assert ([""] + parts)[1..] == parts && ['0'] + "" == "0";
  }

  lemma ZeroOctet(num: string -> Option<int>, parts: seq<string>)
    requires num("0") == Some(0)
    ensures ReadOctets(num, parts).Some? ==> ReadOctets(num, ["0"] + parts) == Some([0] + ReadOctets(num, parts).value)
  {
    assert (["0"] + parts)[1..] == parts;
  }

  lemma ZeroPrefix()
    ensures PrefixOf([0, 0, 0, 0], 24) == "0.0.0.0/24"
  {
    assert [0, 0, 0, 0][..3] == [0, 0, 0];
    assert Dotted([0]) == "0";
    assert Dotted([0, 0]) == "0.0";
    assert Dotted([0, 0, 0]) == "0.0.0";
    assert Decimal(2) == "2" && Decimal(24) == "24";
  }

  // ---- The grouping ----

  datatype Group = Group(key: string, members: seq<Item>, representative: Item, count: nat)

  datatype Bucket = Bucket(key: string, members: seq<Item>)

  /** The incidents of one key, in input order. */
  function WithKey(num: string -> Option<int>, items: seq<Item>, bits: nat, key: string): (r: seq<Item>)
  {
    if items == [] then []
    else
      var front, x := WithKey(num, items[..|items| - 1], bits, key), items[|items| - 1];
      if GroupKeyFor(num, x, bits) == key then front + [x] else front
  }

  /** Updates are compared as dates, to the millisecond. */
  function UpdatedAt(i: Item): real { Millis(i.updatedAt) as real }

  function Newest(g: Group): real { UpdatedAt(g.representative) }

  predicate DistinctKeys<T(!new)>(s: seq<T>, keyOf: T -> string) {
    forall i, j :: 0 <= i < j < |s| ==> keyOf(s[i]) != keyOf(s[j])
  }

  function BucketKey(b: Bucket): string { b.key }

  function GroupKey(g: Group): string { g.key }

  /** A group holds all incidents of its key, newest first, and is represented by the newest. */
  predicate IsGroupOf(num: string -> Option<int>, items: seq<Item>, bits: nat, g: Group) {
    && g.members == Sorted(WithKey(num, items, bits, g.key), UpdatedAt)
    && g.members != [] && g.representative == g.members[0] && g.count == |g.members|
  }

  ghost predicate IsGrouping(num: string -> Option<int>, items: seq<Item>, bits: nat, groups: seq<Group>) {
    && DistinctKeys(groups, GroupKey)
    && (forall g :: g in groups ==> IsGroupOf(num, items, bits, g))
    && (forall x :: x in items ==> exists g :: g in groups && g.key == GroupKeyFor(num, x, bits))
    && Descends(groups, Newest)
  }

  function BucketIndex(buckets: seq<Bucket>, key: string): (k: int)
    ensures -1 <= k < |buckets|
    ensures k >= 0 ==> buckets[k].key == key
    ensures k < 0 ==> forall b :: b in buckets ==> b.key != key
  {
    if buckets == [] then -1
    else if buckets[0].key == key then 0
    else var k := BucketIndex(buckets[1..], key); if k < 0 then -1 else k + 1
  }

  /** The map while it is being filled: one bucket per key seen, with its incidents in input order. */
  ghost predicate Filled(num: string -> Option<int>, items: seq<Item>, bits: nat, buckets: seq<Bucket>) {
    && DistinctKeys(buckets, BucketKey)
    && (forall b :: b in buckets ==> b.members == WithKey(num, items, bits, b.key) && b.members != [])
    && (forall x :: x in items ==> exists b :: b in buckets && b.key == GroupKeyFor(num, x, bits))
  }

  /** One incident goes into its bucket, which is made if there is none. */
  function Dropped(buckets: seq<Bucket>, key: string, x: Item): seq<Bucket> {
    var k := BucketIndex(buckets, key);
    if k < 0 then buckets + [Bucket(key, [x])] else buckets[k := Bucket(key, buckets[k].members + [x])]
  }

  lemma {:induction false} NoneWithKey(num: string -> Option<int>, items: seq<Item>, bits: nat, key: string)
    requires forall x :: x in items ==> GroupKeyFor(num, x, bits) != key
    ensures WithKey(num, items, bits, key) == []
  {
    if items != [] {
      assert items[|items| - 1] in items;
      NoneWithKey(num, items[..|items| - 1], bits, key);
    }
  }

  lemma DropKeepsKeys(buckets: seq<Bucket>, key: string, x: Item)
    requires DistinctKeys(buckets, BucketKey)
    ensures DistinctKeys(Dropped(buckets, key, x), BucketKey)
  {
    var k, filled := BucketIndex(buckets, key), Dropped(buckets, key, x);
    forall i, j | 0 <= i < j < |filled| ensures BucketKey(filled[i]) != BucketKey(filled[j]) {
      if j < |buckets| {
        assert BucketKey(buckets[i]) != BucketKey(buckets[j]);
      } else {
        assert buckets[i] in buckets;
      }
    }
  }

  /** Where the key of an incident is after it went into the map, and what was under the other keys stays. */
  lemma DroppedAt(buckets: seq<Bucket>, key: string, x: Item, b: Bucket)
    requires DistinctKeys(buckets, BucketKey) && b in Dropped(buckets, key, x)
    ensures if b.key != key then b in buckets
            else
              exists was :: b.members == was + [x]
                && (Bucket(key, was) in buckets || (was == [] && BucketIndex(buckets, key) < 0))
  {
    var k, filled := BucketIndex(buckets, key), Dropped(buckets, key, x);
    var i :| 0 <= i < |filled| && filled[i] == b;
    if k >= 0 {
      assert buckets[k] in buckets && buckets[i] in buckets;
      if i == k {
        assert b.members == buckets[k].members + [x] && Bucket(key, buckets[k].members) == buckets[k];
      } else {
        assert BucketKey(buckets[if i < k then i else k]) != BucketKey(buckets[if i < k then k else i]);
      }
    } else if i < |buckets| {
      assert buckets[i] in buckets;
    } else {
      assert b.members == [] + [x];
    }
  }

  lemma DroppedHas(buckets: seq<Bucket>, key: string, x: Item, k: string)
    requires k == key || exists b :: b in buckets && b.key == k
    ensures exists b :: b in Dropped(buckets, key, x) && b.key == k
  {
    var at, filled := BucketIndex(buckets, key), Dropped(buckets, key, x);
    if k == key {
      var i := if at < 0 then |buckets| else at;
      assert filled[i] in filled && filled[i].key == key;
    } else {
      var b :| b in buckets && b.key == k;
      var i :| 0 <= i < |buckets| && buckets[i] == b;
      assert filled[i] in filled && filled[i].key == k;
    }
  }

  lemma DropFillsOne(num: string -> Option<int>, all: seq<Item>, bits: nat, buckets: seq<Bucket>, b: Bucket)
    requires all != [] && Filled(num, all[..|all| - 1], bits, buckets)
    requires b in Dropped(buckets, GroupKeyFor(num, all[|all| - 1], bits), all[|all| - 1])
    ensures b.members == WithKey(num, all, bits, b.key) && b.members != []
  {
    var items, x := all[..|all| - 1], all[|all| - 1];
    var key := GroupKeyFor(num, x, bits);
    DroppedAt(buckets, key, x, b);
    if b.key == key && BucketIndex(buckets, key) < 0 {
      NoBucketNoItem(num, items, bits, buckets, key);
      NoneWithKey(num, items, bits, key);
    }
  }

  lemma DropFills(num: string -> Option<int>, all: seq<Item>, bits: nat, buckets: seq<Bucket>)
    requires all != [] && Filled(num, all[..|all| - 1], bits, buckets)
    ensures Filled(num, all, bits, Dropped(buckets, GroupKeyFor(num, all[|all| - 1], bits), all[|all| - 1]))
  {
    var items, x := all[..|all| - 1], all[|all| - 1];
    var key := GroupKeyFor(num, x, bits);
    DropKeepsKeys(buckets, key, x);
    forall b | b in Dropped(buckets, key, x) ensures b.members == WithKey(num, all, bits, b.key) && b.members != [] {
      DropFillsOne(num, all, bits, buckets, b);
    }
    forall y | y in all ensures exists b :: b in Dropped(buckets, key, x) && b.key == GroupKeyFor(num, y, bits) {
      assert y in items || y == x;
      DroppedHas(buckets, key, x, GroupKeyFor(num, y, bits));
    }
  }

  lemma NoBucketNoItem(num: string -> Option<int>, items: seq<Item>, bits: nat, buckets: seq<Bucket>, key: string)
    requires Filled(num, items, bits, buckets) && BucketIndex(buckets, key) < 0
    ensures forall x :: x in items ==> GroupKeyFor(num, x, bits) != key
  {
  }

  function ToGroup(b: Bucket): Group
    requires b.members != []
  {
    var sorted := Sorted(b.members, UpdatedAt);
    Group(b.key, sorted, sorted[0], |sorted|)
  }

  method ToGroups(buckets: seq<Bucket>) returns (groups: seq<Group>)
    requires forall i :: 0 <= i < |buckets| ==> buckets[i].members != []
    ensures |groups| == |buckets| && forall i :: 0 <= i < |buckets| ==> groups[i] == ToGroup(buckets[i])
  {
    groups := [];
    for n := 0 to |buckets|
      invariant |groups| == n && forall i :: 0 <= i < n ==> groups[i] == ToGroup(buckets[i])
    {
      groups := groups + [ToGroup(buckets[n])];
    }
  }

  /** The map after these incidents. */
  function Buckets(num: string -> Option<int>, items: seq<Item>, bits: nat): seq<Bucket> {
    if items == [] then []
    else var x := items[|items| - 1]; Dropped(Buckets(num, items[..|items| - 1], bits), GroupKeyFor(num, x, bits), x)
  }

  lemma {:induction false} BucketsFill(num: string -> Option<int>, items: seq<Item>, bits: nat)
    ensures Filled(num, items, bits, Buckets(num, items, bits))
  {
    if items != [] {
      var last := |items| - 1;
      BucketsFill(num, items[..last], bits);
      DropFills(num, items, bits, Buckets(num, items[..last], bits));
    }
  }

  method GroupSimilarIncidents(num: string -> Option<int>, items: seq<Item>, bits: nat) returns (groups: seq<Group>)
    ensures IsGrouping(num, items, bits, groups)
  {
    var buckets: seq<Bucket> := [];
    for n := 0 to |items|
      invariant buckets == Buckets(num, items[..n], bits)
    {
      var x := items[n];
      assert items[..n + 1][..n] == items[..n];
      var key := GroupKeyFor(num, x, bits);
      var k := BucketIndex(buckets, key);
      if k < 0 {
        buckets := buckets + [Bucket(key, [x])];
      } else {
        buckets := buckets[k := Bucket(key, buckets[k].members + [x])];
      }
    }
    assert items[..|items|] == items;
    NoEmptyBucket(num, items, bits);
    groups := ToGroups(buckets);
    GroupedBuckets(num, items, bits, groups);
    groups := Sorted(groups, Newest);
  }

  lemma NoEmptyBucket(num: string -> Option<int>, items: seq<Item>, bits: nat)
    ensures forall i :: 0 <= i < |Buckets(num, items, bits)| ==> Buckets(num, items, bits)[i].members != []
  {
    BucketsFill(num, items, bits);
    var buckets := Buckets(num, items, bits);
    assert forall i :: 0 <= i < |buckets| ==> buckets[i] in buckets;
  }

  lemma GroupedBuckets(num: string -> Option<int>, items: seq<Item>, bits: nat, groups: seq<Group>)
    requires |groups| == |Buckets(num, items, bits)|
    requires forall i :: 0 <= i < |groups| ==>
               Buckets(num, items, bits)[i].members != [] && groups[i] == ToGroup(Buckets(num, items, bits)[i])
    ensures IsGrouping(num, items, bits, Sorted(groups, Newest))
  {
    BucketsFill(num, items, bits);
    BucketsCover(num, items, bits, Buckets(num, items, bits), groups);
    SortingKeepsCover(num, items, bits, groups);
  }

  lemma BucketGroup(num: string -> Option<int>, items: seq<Item>, bits: nat, b: Bucket)
    requires b.members == WithKey(num, items, bits, b.key) && b.members != []
    ensures IsGroupOf(num, items, bits, ToGroup(b))
  {
  }

  ghost predicate Covers(num: string -> Option<int>, items: seq<Item>, bits: nat, groups: seq<Group>) {
    && DistinctKeys(groups, GroupKey)
    && (forall g :: g in groups ==> IsGroupOf(num, items, bits, g))
    && (forall x :: x in items ==> exists g :: g in groups && g.key == GroupKeyFor(num, x, bits))
  }

  lemma BucketsCover(num: string -> Option<int>, items: seq<Item>, bits: nat, buckets: seq<Bucket>, groups: seq<Group>)
    requires Filled(num, items, bits, buckets) && |groups| == |buckets|
    requires forall i :: 0 <= i < |buckets| ==> buckets[i].members != [] && groups[i] == ToGroup(buckets[i])
    ensures Covers(num, items, bits, groups)
  {
    forall i | 0 <= i < |groups| ensures IsGroupOf(num, items, bits, groups[i]) && groups[i].key == buckets[i].key {
      assert buckets[i] in buckets;
      BucketGroup(num, items, bits, buckets[i]);
    }
    forall i, j | 0 <= i < j < |groups| ensures GroupKey(groups[i]) != GroupKey(groups[j]) {
      assert BucketKey(buckets[i]) != BucketKey(buckets[j]);
    }
    forall x | x in items ensures exists g :: g in groups && g.key == GroupKeyFor(num, x, bits) {
      var b :| b in buckets && b.key == GroupKeyFor(num, x, bits);
      var i :| 0 <= i < |buckets| && buckets[i] == b;
      assert groups[i] in groups;
    }
  }

  lemma SortingKeepsCover(num: string -> Option<int>, items: seq<Item>, bits: nat, groups: seq<Group>)
    requires Covers(num, items, bits, groups)
    ensures IsGrouping(num, items, bits, Sorted(groups, Newest))
  {
    var sorted := Sorted(groups, Newest);
    SortedDescends(groups, Newest);
    forall g ensures g in sorted <==> g in groups { SameElements(groups, Newest, g); }
    KeysStayDistinct(groups, sorted);
  }

  function KeysOf(groups: seq<Group>): (r: seq<string>)
    ensures |r| == |groups| && forall i :: 0 <= i < |r| ==> r[i] == groups[i].key
  {
    seq(|groups|, i requires 0 <= i < |groups| => groups[i].key)
  }

  /** Distinct keys mean every group occurs once, and a rearrangement keeps that. */
  lemma KeysStayDistinct(groups: seq<Group>, sorted: seq<Group>)
    requires DistinctKeys(groups, GroupKey) && multiset(sorted) == multiset(groups)
    ensures DistinctKeys(sorted, GroupKey)
  {
    forall i, j | 0 <= i < j < |sorted| ensures sorted[i].key != sorted[j].key {
      if sorted[i] == sorted[j] {
        Twice(sorted, i, j);
        OccursOnce(groups, sorted[i]);
      } else {
        assert sorted[i] in multiset(sorted) && sorted[j] in multiset(sorted);
        var p :| 0 <= p < |groups| && groups[p] == sorted[i];
        var q :| 0 <= q < |groups| && groups[q] == sorted[j];
        if p < q {
          assert GroupKey(groups[p]) != GroupKey(groups[q]);
        } else {
          assert GroupKey(groups[q]) != GroupKey(groups[p]);
        }
      }
    }
  }

  lemma Twice(s: seq<Group>, i: nat, j: nat)
    requires i < j < |s| && s[i] == s[j]
    ensures multiset(s)[s[i]] >= 2
  {
    assert s == s[..j] + [s[j]] + s[j + 1..];
    assert s[..j][i] == s[i] && s[i] in multiset(s[..j]);
  }

  lemma {:induction false} OccursOnce(s: seq<Group>, g: Group)
    requires DistinctKeys(s, GroupKey)
    ensures multiset(s)[g] <= 1
  {
    if s != [] {
      var last := |s| - 1;
      OccursOnce(s[..last], g);
      assert s == s[..last] + [s[last]];
      if g == s[last] {
        forall i | 0 <= i < last ensures s[..last][i] != g { assert GroupKey(s[i]) != GroupKey(s[last]); }
        assert g !in s[..last];
      }
    }
  }

  // ---- What a grouping is worth ----

  lemma {:induction false} WithKeyCounts(num: string -> Option<int>, items: seq<Item>, bits: nat, key: string, x: Item)
    ensures multiset(WithKey(num, items, bits, key))[x] ==
            if GroupKeyFor(num, x, bits) == key then multiset(items)[x] else 0
  {
    if items != [] {
      var last := |items| - 1;
      WithKeyCounts(num, items[..last], bits, key, x);
      CountLast(items, x);
      CountSnoc(WithKey(num, items[..last], bits, key), items[last], x);
    }
  }

  lemma CountSnoc(s: seq<Item>, y: Item, x: Item)
    ensures multiset(s + [y])[x] == multiset(s)[x] + if x == y then 1 else 0
  {
  }

  lemma CountLast(s: seq<Item>, x: Item)
    requires s != []
    ensures multiset(s)[x] == multiset(s[..|s| - 1])[x] + if x == s[|s| - 1] then 1 else 0
  {
    assert s == s[..|s| - 1] + [s[|s| - 1]];
  }

  /** Every occurrence of an incident is in the group of its key and in no other. */
  lemma GroupingPartitions(
    num: string -> Option<int>, items: seq<Item>, bits: nat, groups: seq<Group>, x: Item, g: Group)
    requires IsGrouping(num, items, bits, groups) && g in groups
    ensures multiset(g.members)[x] == if g.key == GroupKeyFor(num, x, bits) then multiset(items)[x] else 0
    ensures Descends(g.members, UpdatedAt)
    ensures forall y :: y in g.members ==> g.representative.updatedAt / 1000 >= y.updatedAt / 1000
  {
    assert IsGroupOf(num, items, bits, g);
    WithKeyCounts(num, items, bits, g.key, x);
    SortedDescends(WithKey(num, items, bits, g.key), UpdatedAt);
    forall y | y in g.members ensures Millis(g.representative.updatedAt) >= Millis(y.updatedAt) {
      var k :| 0 <= k < |g.members| && g.members[k] == y;
      if k > 0 { assert UpdatedAt(g.members[0]) >= UpdatedAt(g.members[k]); }
    }
  }

  /** The incidents updated in one millisecond, in order. */
  function UpdatedIn(items: seq<Item>, ms: int): seq<Item> {
    if items == [] then []
    else
      var last := |items| - 1;
      UpdatedIn(items[..last], ms) + if items[last].updatedAt / 1000 == ms then [items[last]] else []
  }

  lemma {:induction false} UpdatedInIsOfRank(items: seq<Item>, ms: int)
    ensures UpdatedIn(items, ms) == OfRank(items, UpdatedAt, ms as real)
  {
    if items != [] { UpdatedInIsOfRank(items[..|items| - 1], ms); }
  }

  /**
   Groups and members come newest first, compared to the millisecond; members of one millisecond stay in input
   order; a group is counted by its members and represented by the first.
   */
  lemma GroupsInOrder(num: string -> Option<int>, items: seq<Item>, bits: nat, groups: seq<Group>)
    requires IsGrouping(num, items, bits, groups)
    ensures forall i, j :: 0 <= i < j < |groups| ==>
              && groups[i].representative.updatedAt / 1000 >= groups[j].representative.updatedAt / 1000
              && groups[i].key != groups[j].key
    ensures forall g :: g in groups ==> g.members != [] && g.representative == g.members[0] && g.count == |g.members|
    ensures forall g, i, j :: g in groups && 0 <= i < j < |g.members| ==>
              g.members[i].updatedAt / 1000 >= g.members[j].updatedAt / 1000
    ensures forall g, ms: int :: g in groups ==>
              UpdatedIn(g.members, ms) == UpdatedIn(WithKey(num, items, bits, g.key), ms)
  {
    forall i, j | 0 <= i < j < |groups|
      ensures groups[i].representative.updatedAt / 1000 >= groups[j].representative.updatedAt / 1000
      ensures groups[i].key != groups[j].key
    {
      assert Newest(groups[i]) >= Newest(groups[j]) && GroupKey(groups[i]) != GroupKey(groups[j]);
    }
    forall g | g in groups
      ensures forall i, j :: 0 <= i < j < |g.members| ==> g.members[i].updatedAt / 1000 >= g.members[j].updatedAt / 1000
    {
      SortedDescends(WithKey(num, items, bits, g.key), UpdatedAt);
      assert forall i, j :: 0 <= i < j < |g.members| ==> UpdatedAt(g.members[i]) >= UpdatedAt(g.members[j]);
    }
    forall g, ms: int | g in groups
      ensures UpdatedIn(g.members, ms) == UpdatedIn(WithKey(num, items, bits, g.key), ms)
    {
      SortedStable(WithKey(num, items, bits, g.key), UpdatedAt, ms as real);
      UpdatedInIsOfRank(g.members, ms);
      UpdatedInIsOfRank(WithKey(num, items, bits, g.key), ms);
    }
  }

  function Counts(groups: seq<Group>): nat {
    if groups == [] then 0 else Counts(groups[..|groups| - 1]) + groups[|groups| - 1].count
  }

  function SumOver(keys: seq<string>, f: string -> nat): nat {
    if keys == [] then 0 else SumOver(keys[..|keys| - 1], f) + f(keys[|keys| - 1])
  }

  /** One more at a single key is one more in a sum over distinct keys that has it. */
  lemma {:induction false} SumPlusOne(keys: seq<string>, f: string -> nat, g: string -> nat, k: string)
    requires forall i, j :: 0 <= i < j < |keys| ==> keys[i] != keys[j]
    requires forall key: string :: f(key) == g(key) + if key == k then 1 else 0
    ensures SumOver(keys, f) == SumOver(keys, g) + if k in keys then 1 else 0
  {
    if keys != [] {
      var n := |keys| - 1;
      SumPlusOne(keys[..n], f, g, k);
      assert k in keys <==> k in keys[..n] || k == keys[n];
    }
  }

  lemma {:induction false} SumOfNone(keys: seq<string>, f: string -> nat)
    requires forall key: string :: f(key) == 0
    ensures SumOver(keys, f) == 0
  {
    if keys != [] { SumOfNone(keys[..|keys| - 1], f); }
  }

  function SizeOfKey(num: string -> Option<int>, items: seq<Item>, bits: nat): string -> nat {
    key => |WithKey(num, items, bits, key)|
  }

  lemma {:induction false} SizesCover(num: string -> Option<int>, items: seq<Item>, bits: nat, keys: seq<string>)
    requires forall i, j :: 0 <= i < j < |keys| ==> keys[i] != keys[j]
    requires forall x :: x in items ==> GroupKeyFor(num, x, bits) in keys
    ensures SumOver(keys, SizeOfKey(num, items, bits)) == |items|
  {
    var f := SizeOfKey(num, items, bits);
    if items == [] {
      SumOfNone(keys, f);
    } else {
      var last := |items| - 1;
      assert items[last] in items;
      SizesCover(num, items[..last], bits, keys);
      SumPlusOne(keys, f, SizeOfKey(num, items[..last], bits), GroupKeyFor(num, items[last], bits));
    }
  }

  lemma {:induction false} CountsAreSizes(num: string -> Option<int>, items: seq<Item>, bits: nat, groups: seq<Group>)
    requires forall g :: g in groups ==> IsGroupOf(num, items, bits, g)
    ensures Counts(groups) == SumOver(KeysOf(groups), SizeOfKey(num, items, bits))
  {
    if groups != [] {
      var n := |groups| - 1;
      GroupSize(num, items, bits, groups[n]);
      CountsAreSizes(num, items, bits, groups[..n]);
      assert KeysOf(groups)[..n] == KeysOf(groups[..n]);
    }
  }

  lemma GroupSize(num: string -> Option<int>, items: seq<Item>, bits: nat, g: Group)
    requires IsGroupOf(num, items, bits, g)
    ensures g.count == |WithKey(num, items, bits, g.key)|
  {
    SortedDescends(WithKey(num, items, bits, g.key), UpdatedAt);
    assert |multiset(g.members)| == |g.members|;
    assert |multiset(WithKey(num, items, bits, g.key))| == |WithKey(num, items, bits, g.key)|;
  }

  /** The counts of the groups add up to the number of incidents. */
  lemma CountsAddUp(num: string -> Option<int>, items: seq<Item>, bits: nat, groups: seq<Group>)
    requires IsGrouping(num, items, bits, groups)
    ensures Counts(groups) == |items|
  {
    CountsAreSizes(num, items, bits, groups);
    var keys := KeysOf(groups);
    forall i, j | 0 <= i < j < |keys| ensures keys[i] != keys[j] { assert GroupKey(groups[i]) != GroupKey(groups[j]); }
    forall x | x in items ensures GroupKeyFor(num, x, bits) in keys {
      var g :| g in groups && g.key == GroupKeyFor(num, x, bits);
      var i :| 0 <= i < |groups| && groups[i] == g;
      assert keys[i] == g.key;
    }
    SizesCover(num, items, bits, keys);
  }

  ghost predicate Within(g: Group, c: Group) {
    forall x :: x in g.members ==> x in c.members
  }

  /** Every group of the one grouping lies inside a group of the other. */
  ghost predicate Refines(fineGroups: seq<Group>, coarseGroups: seq<Group>) {
    forall g :: g in fineGroups ==> exists c :: c in coarseGroups && Within(g, c)
  }

  ghost predicate Unmixed(num: string -> Option<int>, items: seq<Item>, bits: nat) {
    forall x, y :: x in items && y in items ==> !Mixed(num, x, y, bits)
  }

  /**
   The grouping at a finer tolerance refines the one at a coarser tolerance exactly when no incident
   with an address shares its finer key with one without.
   */
  lemma GroupsRefineExactly(num: string -> Option<int>, items: seq<Item>, fine: nat, coarse: nat,
                            fineGroups: seq<Group>, coarseGroups: seq<Group>)
    requires coarse < fine && coarse < 32
    requires IsGrouping(num, items, fine, fineGroups) && IsGrouping(num, items, coarse, coarseGroups)
    ensures Refines(fineGroups, coarseGroups) <==> Unmixed(num, items, fine)
  {
    if Unmixed(num, items, fine) {
      forall g | g in fineGroups ensures exists c :: c in coarseGroups && Within(g, c) {
        var c := CoarserGroup(num, items, fine, coarse, fineGroups, coarseGroups, g);
      }
    }
    if Refines(fineGroups, coarseGroups) {
      forall x, y | x in items && y in items ensures !Mixed(num, x, y, fine) {
        if Mixed(num, x, y, fine) { MixedPairParts(num, items, fine, coarse, fineGroups, coarseGroups, x, y); }
      }
    }
  }

  /** With plain scenario ids and key types a coarser tolerance only ever merges groups. */
  lemma PlainGroupsRefine(num: string -> Option<int>, items: seq<Item>, fine: nat, coarse: nat,
                          fineGroups: seq<Group>, coarseGroups: seq<Group>)
    requires coarse <= fine && forall x :: x in items ==> Plain(x)
    requires IsGrouping(num, items, fine, fineGroups) && IsGrouping(num, items, coarse, coarseGroups)
    ensures Refines(fineGroups, coarseGroups)
  {
    forall x, y | x in items && y in items ensures !Mixed(num, x, y, fine) { PlainNeverMixed(num, x, y, fine); }
    forall g | g in fineGroups ensures exists c :: c in coarseGroups && Within(g, c) {
      var c := CoarserGroup(num, items, fine, coarse, fineGroups, coarseGroups, g);
    }
  }

  lemma CoarserGroup(num: string -> Option<int>, items: seq<Item>, fine: nat, coarse: nat,
                     fineGroups: seq<Group>, coarseGroups: seq<Group>, g: Group) returns (c: Group)
    requires coarse <= fine && Unmixed(num, items, fine)
    requires IsGrouping(num, items, fine, fineGroups) && IsGrouping(num, items, coarse, coarseGroups) && g in fineGroups
    ensures c in coarseGroups && Within(g, c)
  {
    var r := g.representative;
    InGroup(num, items, fine, fineGroups, g, r);
    c :| c in coarseGroups && c.key == GroupKeyFor(num, r, coarse);
    forall x | x in g.members ensures x in c.members {
      InGroup(num, items, fine, fineGroups, g, x);
      StayTogetherExactly(num, r, x, fine, coarse);
      IsMember(num, items, coarse, coarseGroups, c, x);
    }
  }

  lemma MixedPairParts(num: string -> Option<int>, items: seq<Item>, fine: nat, coarse: nat,
                       fineGroups: seq<Group>, coarseGroups: seq<Group>, x: Item, y: Item)
    requires coarse < fine && coarse < 32 && x in items && y in items && Mixed(num, x, y, fine)
    requires IsGrouping(num, items, fine, fineGroups) && IsGrouping(num, items, coarse, coarseGroups)
    ensures !Refines(fineGroups, coarseGroups)
  {
    var g :| g in fineGroups && g.key == GroupKeyFor(num, x, fine);
    IsMember(num, items, fine, fineGroups, g, x);
    IsMember(num, items, fine, fineGroups, g, y);
    StayTogetherExactly(num, x, y, fine, coarse);
    forall c | c in coarseGroups ensures !Within(g, c) {
      if x in c.members && y in c.members {
        InGroup(num, items, coarse, coarseGroups, c, x);
        InGroup(num, items, coarse, coarseGroups, c, y);
      }
    }
  }

  lemma IsMember(num: string -> Option<int>, items: seq<Item>, bits: nat, groups: seq<Group>, g: Group, x: Item)
    requires IsGrouping(num, items, bits, groups) && g in groups && x in items && g.key == GroupKeyFor(num, x, bits)
    ensures x in g.members
  {
    GroupingPartitions(num, items, bits, groups, x, g);
    assert x in multiset(items);
    assert x in multiset(g.members);
  }

  lemma InGroup(num: string -> Option<int>, items: seq<Item>, bits: nat, groups: seq<Group>, g: Group, x: Item)
    requires IsGrouping(num, items, bits, groups) && g in groups && x in g.members
    ensures x in items && GroupKeyFor(num, x, bits) == g.key
  {
    GroupingPartitions(num, items, bits, groups, x, g);
    assert x in multiset(g.members);
    assert x in multiset(items);
  }
}
