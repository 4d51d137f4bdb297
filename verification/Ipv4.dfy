/** Which destination addresses the proxy refuses: the text tests, and the address ranges they stand for. */
module Ipv4 {
  predicate IsDigit(c: char) {
    '0' <= c <= '9'
  }

  function DigitValue(c: char): int {
    c as int - '0' as int
  }

  /** The number written by one to three digits. */
  function Number(s: string): int {
    if |s| == 1 then DigitValue(s[0])
    else if |s| == 2 then DigitValue(s[0]) * 10 + DigitValue(s[1])
    else if |s| == 3 then DigitValue(s[0]) * 100 + DigitValue(s[1]) * 10 + DigitValue(s[2])
    else 0
  }

  /** A number from 0 to 255 without leading zeros, as the platform's address check demands. */
  predicate IsOctet(s: string) {
    && 1 <= |s| <= 3
    && IsDigit(s[0]) && (|s| > 1 ==> IsDigit(s[1])) && (|s| > 2 ==> IsDigit(s[2]))
    && (|s| > 1 ==> s[0] != '0')
    && Number(s) <= 255
  }

  /** Four numbers with dots between them: the only texts that the platform takes for an IPv4 address. */
  function Dotted(a: string, b: string, c: string, d: string): string {
    a + ("." + (b + ("." + (c + ("." + d)))))
  }

  function Address(a: int, b: int, c: int, d: int): int {
    a * 0x100_0000 + b * 0x1_0000 + c * 0x100 + d
  }

  /** The addresses from `network` on; sizes are powers of two, and a network is a multiple of its size. */
  datatype Block = Block(network: int, size: int)

  predicate InBlock(v: int, block: Block) {
    block.network <= v < block.network + block.size
  }

  /**
   * Loopback 127/8, the private blocks 10/8, 172.16/12 and 192.168/16 of section 3 of RFC 1918,
   * link-local 169.254/16 of section 2.1 of RFC 3927, and the single address 0.0.0.0.
   */
  function RefusedBlock(k: nat): Block {
    match k
    case 0 => Block(Address(127, 0, 0, 0), 0x100_0000)
    case 1 => Block(Address(10, 0, 0, 0), 0x100_0000)
    case 2 => Block(Address(172, 16, 0, 0), 0x10_0000)
    case 3 => Block(Address(192, 168, 0, 0), 0x1_0000)
    case 4 => Block(Address(169, 254, 0, 0), 0x1_0000)
    case _ => Block(Address(0, 0, 0, 0), 1)
  }

  predicate InRefusedBlock(v: int) {
    exists k :: 0 <= k < 6 && InBlock(v, RefusedBlock(k))
  }

  /** The pattern of 172.16. to 172.31. at the start of the text. */
  predicate Starts172(ip: string) {
    && "172." <= ip
    && |ip| >= 7
    && ip[6] == '.'
    && ((ip[4] == '1' && '6' <= ip[5] <= '9') || (ip[4] == '2' && IsDigit(ip[5])) || (ip[4] == '3' && '0' <= ip[5] <= '1'))
  }

  predicate IsPrivateOrLoopbackIpv4(ip: string) {
    || ip == "0.0.0.0"
    || "127." <= ip
    || "10." <= ip
    || "192.168." <= ip
    || "169.254." <= ip
    || Starts172(ip)
  }

  lemma OctetTextIsItsNumber(s: string, t: string)
    requires IsOctet(s) && IsOctet(t)
    ensures s == t <==> Number(s) == Number(t)
  {
    if Number(s) == Number(t) {
      assert |s| == |t|;
    }
  }

  /** A dot-free start followed by a dot fits a text exactly if it is the text's first label. */
  lemma StartIsFirstLabel(start: string, first: string, rest: string)
    requires '.' !in start && '.' !in first
    ensures start + "." <= first + ("." + rest) <==> start == first
  {
    var s, t := start + ".", first + ("." + rest);
    if s <= t {
      assert s == t[..|s|];
      assert t[|start|] == s[|start|] == '.';
      assert t[|first|] == '.';
      assert |start| == |first| by {
        assert forall k :: 0 <= k < |first| ==> t[k] == first[k];
        assert forall k :: 0 <= k < |start| ==> t[k] == s[k] == start[k];
      }
      assert start == s[..|start|] == t[..|start|];
    }
  }

  lemma NoDotInOctet(s: string)
    requires IsOctet(s)
    ensures '.' !in s
  {
  }

  lemma StartIsFirstTwoLabels(start: string, next: string, first: string, second: string, rest: string)
    requires '.' !in start && '.' !in next && '.' !in first && '.' !in second
    ensures start + "." + next + "." <= first + ("." + (second + ("." + rest))) <==> start == first && next == second
  {
    var s, t := start + "." + next + ".", first + ("." + (second + ("." + rest)));
    StartIsFirstLabel(start, first, second + ("." + rest));
    StartIsFirstLabel(next, second, rest);
    if s <= t {
      assert s[..|start| + 1] == start + ".";
      assert start + "." <= t;
      assert s[|start| + 1..] == next + ".";
      assert t[|first| + 1..] == second + ("." + rest);
    }
    if start == first && next == second {
      assert t == s + rest;
    }
  }

  lemma PatternTest(a: string, b: string, rest: string)
    requires IsOctet(a) && IsOctet(b)
    ensures Starts172(a + ("." + (b + ("." + rest)))) <==> Number(a) == 172 && 16 <= Number(b) <= 31
  {
    var ip := a + ("." + (b + ("." + rest)));
    NoDotInOctet(a);
    StartIsFirstLabel("172", a, b + ("." + rest));
    assert "172" + "." == "172.";
    OctetTextIsItsNumber(a, "172");
    if a == "172" {
      assert forall k :: 0 <= k < |b| ==> ip[4 + k] == b[k];
      assert ip[4 + |b|] == '.';
    }
  }

  lemma OneLabelTest(first: string, a: string, rest: string)
    requires IsOctet(first) && IsOctet(a)
    ensures first + "." <= a + ("." + rest) <==> Number(a) == Number(first)
  {
    NoDotInOctet(first);
    NoDotInOctet(a);
    StartIsFirstLabel(first, a, rest);
    OctetTextIsItsNumber(a, first);
  }

  lemma TwoLabelTest(first: string, second: string, a: string, b: string, rest: string)
    requires IsOctet(first) && IsOctet(second) && IsOctet(a) && IsOctet(b)
    ensures first + "." + second + "." <= a + ("." + (b + ("." + rest))) <==>
            Number(a) == Number(first) && Number(b) == Number(second)
  {
    NoDotInOctet(first);
    NoDotInOctet(second);
    NoDotInOctet(a);
    NoDotInOctet(b);
    StartIsFirstTwoLabels(first, second, a, b, rest);
    OctetTextIsItsNumber(a, first);
    OctetTextIsItsNumber(b, second);
  }

  lemma PrefixTests(a: string, b: string, rest: string)
    requires IsOctet(a) && IsOctet(b)
    ensures var s := a + ("." + (b + ("." + rest)));
            && ("127." <= s <==> Number(a) == 127)
            && ("10." <= s <==> Number(a) == 10)
            && ("192.168." <= s <==> Number(a) == 192 && Number(b) == 168)
            && ("169.254." <= s <==> Number(a) == 169 && Number(b) == 254)
  {
    OneLabelTest("127", a, b + ("." + rest));
    assert "127" + "." == "127.";
    OneLabelTest("10", a, b + ("." + rest));
    assert "10" + "." == "10.";
    TwoLabelTest("192", "168", a, b, rest);
    assert "192" + "." + "168" + "." == "192.168.";
    TwoLabelTest("169", "254", a, b, rest);
    assert "169" + "." + "254" + "." == "169.254.";
  }

  lemma UnspecifiedTest(a: string, b: string, c: string, d: string)
    requires IsOctet(a) && IsOctet(b) && IsOctet(c) && IsOctet(d)
    ensures Dotted(a, b, c, d) == "0.0.0.0" <==> Number(a) == Number(b) == Number(c) == Number(d) == 0
  {
    var zero := "0";
    assert Dotted(zero, zero, zero, zero) == "0.0.0.0";
    OctetTextIsItsNumber(a, zero);
    OctetTextIsItsNumber(b, zero);
    OctetTextIsItsNumber(c, zero);
    OctetTextIsItsNumber(d, zero);
    if Dotted(a, b, c, d) == "0.0.0.0" {
      NoDotInOctet(a);
      NoDotInOctet(b);
      NoDotInOctet(c);
      SameFirstLabel(a, zero, b + ("." + (c + ("." + d))), zero + ("." + (zero + ("." + zero))));
      SameFirstLabel(b, zero, c + ("." + d), zero + ("." + zero));
      SameFirstLabel(c, zero, d, zero);
    }
  }

  lemma SameFirstLabel(first: string, first': string, rest: string, rest': string)
    requires '.' !in first && '.' !in first'
    requires first + ("." + rest) == first' + ("." + rest')
    ensures first == first' && rest == rest'
  {
    var s := first + ("." + rest);
    assert first + "." <= s && s[|first| + 1..] == rest;
    StartIsFirstLabel(first, first', rest');
    assert s[|first'| + 1..] == rest';
  }

  predicate IsByte(n: int) {
    0 <= n <= 255
  }

  /** A refused block, number by number. */
  predicate RefusedNumber(w: int, x: int, y: int, z: int, k: nat) {
    match k
    case 0 => w == 127
    case 1 => w == 10
    case 2 => w == 172 && 16 <= x <= 31
    case 3 => w == 192 && x == 168
    case 4 => w == 169 && x == 254
    case _ => w == x == y == z == 0
  }

  predicate RefusedNumbers(w: int, x: int, y: int, z: int) {
    w == x == y == z == 0 || w == 127 || w == 10 || (w == 192 && x == 168) || (w == 169 && x == 254) || (w == 172 && 16 <= x <= 31)
  }

  lemma OneByteBlock(a: int, b: int, c: int, d: int, n: int)
    requires IsByte(a) && IsByte(b) && IsByte(c) && IsByte(d)
    ensures InBlock(Address(a, b, c, d), Block(Address(n, 0, 0, 0), 0x100_0000)) <==> a == n
  {
  }

  lemma TwoByteBlock(a: int, b: int, c: int, d: int, m: int, n: int, size: int)
    requires IsByte(a) && IsByte(b) && IsByte(c) && IsByte(d) && IsByte(n) && 1 <= size <= 256 - n
    ensures InBlock(Address(a, b, c, d), Block(Address(m, n, 0, 0), size * 0x1_0000)) <==> a == m && n <= b < n + size
  {
  }

  lemma WholeAddressBlock(a: int, b: int, c: int, d: int)
    requires IsByte(a) && IsByte(b) && IsByte(c) && IsByte(d)
    ensures InBlock(Address(a, b, c, d), Block(Address(0, 0, 0, 0), 1)) <==> a == b == c == d == 0
  {
    var p := a * 256 + b;
    var q := p * 256 + c;
    assert Address(a, b, c, d) == q * 256 + d;
    ZeroByBytes(q, d);
    ZeroByBytes(p, c);
    ZeroByBytes(a, b);
    assert InBlock(q * 256 + d, Block(0, 1)) <==> q * 256 + d == 0;
  }

  lemma ZeroByBytes(high: nat, low: int)
    requires IsByte(low)
    ensures high * 256 + low >= 0
    ensures high * 256 + low == 0 <==> high == 0 && low == 0
  {
  }

  lemma FirstByteDecides(w: int, x: int, y: int, z: int, k: nat)
    requires IsByte(w) && IsByte(x) && IsByte(y) && IsByte(z) && k < 2
    ensures InBlock(Address(w, x, y, z), RefusedBlock(k)) <==> RefusedNumber(w, x, y, z, k)
  {
    OneByteBlock(w, x, y, z, if k == 0 then 127 else 10);
  }

  lemma TwoBytesDecide(w: int, x: int, y: int, z: int, k: nat)
    requires IsByte(w) && IsByte(x) && IsByte(y) && IsByte(z) && 2 <= k < 5
    ensures InBlock(Address(w, x, y, z), RefusedBlock(k)) <==> RefusedNumber(w, x, y, z, k)
  {
    if k == 2 {
      TwoByteBlock(w, x, y, z, 172, 16, 16);
    } else if k == 3 {
      TwoByteBlock(w, x, y, z, 192, 168, 1);
    } else {
      TwoByteBlock(w, x, y, z, 169, 254, 1);
    }
  }

  lemma AllBytesDecide(w: int, x: int, y: int, z: int)
    requires IsByte(w) && IsByte(x) && IsByte(y) && IsByte(z)
    ensures InBlock(Address(w, x, y, z), RefusedBlock(5)) <==> RefusedNumber(w, x, y, z, 5)
  {
    WholeAddressBlock(w, x, y, z);
  }

  lemma BlockByNumbers(w: int, x: int, y: int, z: int, k: nat)
    requires IsByte(w) && IsByte(x) && IsByte(y) && IsByte(z) && k < 6
    ensures InBlock(Address(w, x, y, z), RefusedBlock(k)) <==> RefusedNumber(w, x, y, z, k)
  {
    if k < 2 {
      FirstByteDecides(w, x, y, z, k);
    } else if k < 5 {
      TwoBytesDecide(w, x, y, z, k);
    } else {
      AllBytesDecide(w, x, y, z);
    }
  }

  lemma BlocksByNumbers(w: int, x: int, y: int, z: int)
    requires IsByte(w) && IsByte(x) && IsByte(y) && IsByte(z)
    ensures InRefusedBlock(Address(w, x, y, z)) ==> RefusedNumbers(w, x, y, z)
    ensures RefusedNumbers(w, x, y, z) ==> InRefusedBlock(Address(w, x, y, z))
  {
    if InRefusedBlock(Address(w, x, y, z)) {
      var k :| 0 <= k < 6 && InBlock(Address(w, x, y, z), RefusedBlock(k));
      BlockByNumbers(w, x, y, z, k);
    }
    if RefusedNumbers(w, x, y, z) {
      var k := RefusedNumberOf(w, x, y, z);
      BlockByNumbers(w, x, y, z, k);
    }
  }

  lemma RefusedNumberOf(w: int, x: int, y: int, z: int) returns (k: nat)
    requires RefusedNumbers(w, x, y, z)
    ensures k < 6 && RefusedNumber(w, x, y, z, k)
  {
    k := if w == 127 then 0 else if w == 10 then 1 else if w == 172 then 2 else if w == 192 then 3 else if w == 169 then 4 else 5;
  }

  lemma TextTestsByNumbers(a: string, b: string, c: string, d: string, w: int, x: int, y: int, z: int)
    requires IsOctet(a) && IsOctet(b) && IsOctet(c) && IsOctet(d)
    requires w == Number(a) && x == Number(b) && y == Number(c) && z == Number(d)
    ensures IsPrivateOrLoopbackIpv4(Dotted(a, b, c, d)) <==> RefusedNumbers(w, x, y, z)
    ensures IsByte(w) && IsByte(x) && IsByte(y) && IsByte(z)
  {
    UnspecifiedTest(a, b, c, d);
    PrefixTests(a, b, c + ("." + d));
    PatternTest(a, b, c + ("." + d));
  }

  /** On every dotted quad the tests on characters decide exactly whether its 32-bit address is in a refused block. */
  lemma TextTestsAreRangeTests(a: string, b: string, c: string, d: string)
    requires IsOctet(a) && IsOctet(b) && IsOctet(c) && IsOctet(d)
    ensures IsPrivateOrLoopbackIpv4(Dotted(a, b, c, d)) <==>
            InRefusedBlock(Address(Number(a), Number(b), Number(c), Number(d)))
  {
    var w, x, y, z := Number(a), Number(b), Number(c), Number(d);
    TextTestsByNumbers(a, b, c, d, w, x, y, z);
    BlocksByNumbers(w, x, y, z);
  }

  // ----- the host test -----

  ghost predicate IsIpv4(s: string) {
    exists a: string, b: string, c: string, d: string ::
      IsOctet(a) && IsOctet(b) && IsOctet(c) && IsOctet(d) && s == Dotted(a, b, c, d)
  }

  function StripIpv6Brackets(host: string): string {
    if |host| >= 2 && host[0] == '[' && host[|host| - 1] == ']' then host[1..|host| - 1] else host
  }

  /** `clean` trims and folds case; `refusesOther` is the verdict on everything that is not an IPv4 text. */
  ghost predicate IsBlockedDestinationHost(host: string, clean: string -> string, refusesOther: string -> bool) {
    var normalized := StripIpv6Brackets(clean(host));
    if normalized == "localhost" then true
    else if IsIpv4(normalized) then IsPrivateOrLoopbackIpv4(normalized)
    else refusesOther(normalized)
  }

  lemma LocalhostIsNoAddress(a: string, rest: string)
    requires IsOctet(a)
    ensures a + ("." + rest) != "localhost"
  {
    assert IsDigit((a + ("." + rest))[0]);
  }

  /** A host that is an IPv4 text, with or without brackets, is blocked exactly if its address is in a refused block. */
  lemma BlockedIpv4Hosts(host: string, clean: string -> string, refusesOther: string -> bool,
                         a: string, b: string, c: string, d: string)
    requires IsOctet(a) && IsOctet(b) && IsOctet(c) && IsOctet(d)
    requires clean(host) == Dotted(a, b, c, d) || clean(host) == "[" + Dotted(a, b, c, d) + "]"
    ensures IsBlockedDestinationHost(host, clean, refusesOther) <==>
            InRefusedBlock(Address(Number(a), Number(b), Number(c), Number(d)))
  {
    assert Dotted(a, b, c, d)[0] == a[0];
    assert StripIpv6Brackets(clean(host)) == Dotted(a, b, c, d);
    LocalhostIsNoAddress(a, b + ("." + (c + ("." + d))));
    TextTestsAreRangeTests(a, b, c, d);
  }

  /** The one blocked name, with or without brackets, is no address; every other name is left to the other test. */
  lemma BlockedNames(host: string, clean: string -> string, refusesOther: string -> bool, name: string)
    requires clean(host) == name || clean(host) == "[" + name + "]"
    requires name != "" && name[0] != '[' && !IsIpv4(name)
    ensures IsBlockedDestinationHost(host, clean, refusesOther) <==> name == "localhost" || refusesOther(name)
  {
    assert ("[" + name + "]")[1..|name| + 1] == name;
    assert StripIpv6Brackets(clean(host)) == name;
  }

  lemma LocalhostIsBlocked(host: string, clean: string -> string, refusesOther: string -> bool)
    requires clean(host) == "localhost" || clean(host) == "[localhost]"
    ensures !IsIpv4("localhost") && IsBlockedDestinationHost(host, clean, refusesOther)
  {
    if a: string, b: string, c: string, d: string :| IsOctet(a) && IsOctet(b) && IsOctet(c) && IsOctet(d)
                                                     && "localhost" == Dotted(a, b, c, d) {
      LocalhostIsNoAddress(a, b + ("." + (c + ("." + d))));
    }
    BlockedNames(host, clean, refusesOther, "localhost");
  }
}
