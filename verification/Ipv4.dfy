/** Dotted IPv4 text, as Python's ipaddress prints and parses it, and the usable hosts of a network. */
module Ipv4 {
  import opened Common
  import opened Text

  const SPACE: nat := 0x1_0000_0000

  type Address = n: nat | n < SPACE

  type Octet = n: nat | n < 256

  function Digit(d: nat): char
    requires d < 10
  {
    "0123456789"[d]
  }

  /** No leading zeros. */
  function PrintOctet(n: Octet): string {
    if n < 10 then [Digit(n)]
    else if n < 100 then [Digit(n / 10), Digit(n % 10)]
    else [Digit(n / 100), Digit(n / 10 % 10), Digit(n % 10)]
  }

  function DigitValue(c: char): nat
    requires IsDigit(c)
  {
    c as int - '0' as int
  }

  /** One to three digits, no leading zero, at most 255. */
  function ParseOctet(s: string): Option<nat> {
    if |s| == 0 || |s| > 3 || !(forall i :: 0 <= i < |s| ==> IsDigit(s[i])) then None
    else if s[0] == '0' && |s| > 1 then None
    else
      var v :=
        if |s| == 1 then DigitValue(s[0])
        else if |s| == 2 then 10 * DigitValue(s[0]) + DigitValue(s[1])
        else 100 * DigitValue(s[0]) + 10 * DigitValue(s[1]) + DigitValue(s[2]);
      if v > 255 then None else Some(v)
  }

  lemma DigitInverse(d: nat)
    requires d < 10
    ensures IsDigit(Digit(d)) && DigitValue(Digit(d)) == d && (Digit(d) == '0' ==> d == 0) && Digit(d) != '.'
  {
    if d < 5 {
      assert d == 0 || d == 1 || d == 2 || d == 3 || d == 4;
    } else {
      assert d == 5 || d == 6 || d == 7 || d == 8 || d == 9;
    }
  }

  lemma CharInverse(c: char)
    requires IsDigit(c)
    ensures DigitValue(c) < 10 && Digit(DigitValue(c)) == c
  {
    DigitInverse(DigitValue(c));
  }

  lemma ParseOctetPrint(n: Octet)
    ensures ParseOctet(PrintOctet(n)) == Some(n)
    ensures Free(PrintOctet(n), '.')
  {
    var s := PrintOctet(n);
    if n < 10 {
      DigitInverse(n);
    } else if n < 100 {
      DigitInverse(n / 10);
      DigitInverse(n % 10);
    } else {
      var q := n / 10;
      assert q / 10 == n / 100;
      DigitInverse(n / 100);
      DigitInverse(q % 10);
      DigitInverse(n % 10);
      assert |s| == 3;
    }
    assert forall i :: 0 <= i < |s| ==> IsDigit(s[i]);
  }

  /** The value of a text that parses, digit by digit. */
  lemma ParsedOctet(s: string)
    requires ParseOctet(s).Some?
    ensures 1 <= |s| <= 3 && ParseOctet(s).value < 256
    ensures forall i :: 0 <= i < |s| ==> IsDigit(s[i]) && DigitValue(s[i]) < 10 && Digit(DigitValue(s[i])) == s[i]
    ensures |s| > 1 ==> DigitValue(s[0]) >= 1
    ensures |s| == 1 ==> ParseOctet(s).value == DigitValue(s[0])
    ensures |s| == 2 ==> ParseOctet(s).value == 10 * DigitValue(s[0]) + DigitValue(s[1])
    ensures |s| == 3 ==>
      ParseOctet(s).value == 100 * DigitValue(s[0]) + 10 * DigitValue(s[1]) + DigitValue(s[2])
  {
    forall i | 0 <= i < |s| ensures IsDigit(s[i]) && DigitValue(s[i]) < 10 && Digit(DigitValue(s[i])) == s[i] {
      CharInverse(s[i]);
    }
    if |s| > 1 {
      FirstDigitNonZero(s);
    }
  }

  lemma PrintParsedOctet(s: string)
    requires ParseOctet(s).Some?
    ensures ParseOctet(s).value < 256 && PrintOctet(ParseOctet(s).value) == s
  {
    ParsedOctet(s);
    hide ParseOctet, DigitValue, Digit, IsDigit, PrintOctet;
    if |s| == 1 {
      PrintOne(DigitValue(s[0]));
      assert s == [s[0]];
    } else if |s| == 2 {
      PrintTwo(DigitValue(s[0]), DigitValue(s[1]));
      assert s == [s[0], s[1]];
    } else {
      PrintThree(DigitValue(s[0]), DigitValue(s[1]), DigitValue(s[2]));
      assert s == [s[0], s[1], s[2]];
    }
  }

  lemma PrintOne(a: nat)
    requires a < 10
    ensures PrintOctet(a) == [Digit(a)]
  {
  }

  lemma PrintTwo(a: nat, b: nat)
    requires 1 <= a < 10 && b < 10
    ensures PrintOctet(10 * a + b) == [Digit(a), Digit(b)]
  {
    TwoDigits(a, b);
  }

  lemma PrintThree(a: nat, b: nat, c: nat)
    requires 1 <= a < 10 && b < 10 && c < 10 && 100 * a + 10 * b + c < 256
    ensures PrintOctet(100 * a + 10 * b + c) == [Digit(a), Digit(b), Digit(c)]
  {
    ThreeDigits(a, b, c);
  }

  lemma TwoDigits(a: nat, b: nat)
    requires 1 <= a < 10 && b < 10
    ensures var v := 10 * a + b; 10 <= v < 100 && v / 10 == a && v % 10 == b
  {
  }

  lemma ThreeDigits(a: nat, b: nat, c: nat)
    requires 1 <= a < 10 && b < 10 && c < 10
    ensures var v := 100 * a + 10 * b + c; 100 <= v && v / 100 == a && v / 10 % 10 == b && v % 10 == c
  {
    var v := 100 * a + 10 * b + c;
    assert v == 10 * (10 * a + b) + c;
    assert v / 10 == 10 * a + b;
  }

  lemma FirstDigitNonZero(s: string)
    requires |s| > 1 && ParseOctet(s).Some?
    ensures IsDigit(s[0]) && DigitValue(s[0]) >= 1
  {
  }

  function Octets(a: Address): (r: seq<Octet>)
    ensures |r| == 4
  {
    var q1: nat := a / 256;
    var q2: nat := q1 / 256;
    var q3: nat := q2 / 256;
    assert q1 < 0x100_0000 && q2 < 0x1_0000 && q3 < 256;
    [q3, q2 % 256, q1 % 256, a % 256]
  }

  function Shift(q: nat, o: Octet): nat { q * 256 + o }

  function FromOctets(o: seq<Octet>): Address
    requires |o| == 4
  {
    Shift(Shift(Shift(o[0], o[1]), o[2]), o[3])
  }

  lemma ShiftInverse(q: nat, o: Octet)
    ensures Shift(q, o) / 256 == q && Shift(q, o) % 256 == o
  {
  }

  lemma OctetsInverse(a: Address)
    ensures FromOctets(Octets(a)) == a
  {
    var q1 := a / 256;
    var q2 := q1 / 256;
    assert Shift(q2 / 256, q2 % 256) == q2;
    assert Shift(q2, q1 % 256) == q1;
    assert Shift(q1, a % 256) == a;
  }

  lemma FromOctetsInverse(o: seq<Octet>)
    requires |o| == 4
    ensures Octets(FromOctets(o)) == o
  {
    var q2 := Shift(o[0], o[1]);
    var q1 := Shift(q2, o[2]);
    ShiftInverse(o[0], o[1]);
    ShiftInverse(q2, o[2]);
    ShiftInverse(q1, o[3]);
  }

  function Print(a: Address): string {
    var o := Octets(a);
    Join([PrintOctet(o[0]), PrintOctet(o[1]), PrintOctet(o[2]), PrintOctet(o[3])], '.')
  }

  function Parse(s: string): Option<Address> {
    var p := Split(s, '.');
    if |p| != 4 then None
    else
      var a, b, c, d := ParseOctet(p[0]), ParseOctet(p[1]), ParseOctet(p[2]), ParseOctet(p[3]);
      if a.None? || b.None? || c.None? || d.None? then None
      else
        PrintParsedOctet(p[0]); PrintParsedOctet(p[1]); PrintParsedOctet(p[2]); PrintParsedOctet(p[3]);
        Some(FromOctets([a.value, b.value, c.value, d.value]))
  }

  /** The decimal text of a number. */
  function Decimal(n: nat): string {
    (if n < 10 then "" else Decimal(n / 10)) + [(n % 10 + '0' as int) as char]
  }

  lemma OctetIsDecimal(n: Octet)
    ensures PrintOctet(n) == Decimal(n)
  {
    hide Decimal, Digit;
    if n < 10 {
      DecimalDigit(n);
    } else if n < 100 {
      DecimalSnoc(n);
      DecimalDigit(n / 10);
    } else {
      var q := n / 10;
      assert q / 10 == n / 100;
      DecimalSnoc(n);
      DecimalSnoc(q);
      DecimalDigit(n / 100);
    }
  }

  lemma DecimalSnoc(n: nat)
    requires n >= 10
    ensures Decimal(n) == Decimal(n / 10) + [Digit(n % 10)]
  {
    DecimalDigit(n % 10);
  }

  lemma DecimalDigit(d: nat)
    requires d < 10
    ensures Digit(d) == (d + '0' as int) as char && Decimal(d) == [Digit(d)]
  {
    DigitInverse(d);
  }

  lemma OctetsMean(a: Address)
    ensures Octets(a) == [a / 0x100_0000, a / 0x1_0000 % 256, a / 0x100 % 256, a % 256]
  {
  }

  lemma JoinFour(p: seq<string>)
    requires |p| == 4
    ensures Join(p, '.') == p[0] + "." + (p[1] + "." + (p[2] + "." + p[3]))
  {
    var p1, p2 := p[1..], p[2..];
    assert p1[1..] == p2 && p2[1..] == [p[3]];
    assert Join(p2, '.') == p[2] + "." + p[3] && Join(p1, '.') == p[1] + "." + Join(p2, '.');
  }

  /** The four octets in decimal, the highest first. */
  lemma PrintMeans(a: Address)
    ensures Print(a) == Decimal(a / 0x100_0000) + "." + (Decimal(a / 0x1_0000 % 256) + "."
                        + (Decimal(a / 0x100 % 256) + "." + Decimal(a % 256)))
  {
    OctetsMean(a);
    hide Octets, PrintOctet, Decimal, Join;
    var o := Octets(a);
    JoinFour([PrintOctet(o[0]), PrintOctet(o[1]), PrintOctet(o[2]), PrintOctet(o[3])]);
    OctetIsDecimal(o[0]);
    OctetIsDecimal(o[1]);
    OctetIsDecimal(o[2]);
    OctetIsDecimal(o[3]);
  }

  /** Every address is read back from its text. */
  lemma ParsePrint(a: Address)
    ensures Parse(Print(a)) == Some(a)
  {
    var o := Octets(a);
    ParseOctetPrint(o[0]);
    ParseOctetPrint(o[1]);
    ParseOctetPrint(o[2]);
    ParseOctetPrint(o[3]);
    SplitJoin([PrintOctet(o[0]), PrintOctet(o[1]), PrintOctet(o[2]), PrintOctet(o[3])], '.');
    OctetsInverse(a);
    assert [o[0], o[1], o[2], o[3]] == o;
  }

  /** Every text that parses is the one text of its address. */
  lemma PrintParse(s: string)
    requires Parse(s).Some?
    ensures Print(Parse(s).value) == s
  {
    var p := Split(s, '.');
    PrintParsedOctet(p[0]);
    PrintParsedOctet(p[1]);
    PrintParsedOctet(p[2]);
    PrintParsedOctet(p[3]);
    var o: seq<Octet> :=
      [ParseOctet(p[0]).value, ParseOctet(p[1]).value, ParseOctet(p[2]).value, ParseOctet(p[3]).value];
    FromOctetsInverse(o);
    assert p == [p[0], p[1], p[2], p[3]];
    JoinSplit(s, '.');
  }

  // ---------------------------------------------------------------- networks

  function Pow2(n: nat): (r: nat)
    ensures r >= 1
  {
    if n == 0 then 1 else 2 * Pow2(n - 1)
  }

  lemma {:induction false} Pow2Add(a: nat, b: nat)
    ensures Pow2(a + b) == Pow2(a) * Pow2(b)
  {
    if a > 0 {
      Pow2Add(a - 1, b);
      assert Pow2(a + b) == 2 * (Pow2(a - 1) * Pow2(b)) == Pow2(a) * Pow2(b);
    }
  }

  datatype Network = Network(base: nat, prefix: nat)

  predicate ValidNetwork(n: Network) {
    n.prefix <= 32 && n.base + Pow2(32 - n.prefix) <= SPACE
  }

  /** ip_network(..., strict=False): the host bits of the given address are cleared. */
  function MakeNetwork(a: Address, prefix: nat): (n: Network)
    requires prefix <= 32
    ensures ValidNetwork(n) && n.prefix == prefix
    ensures n.base <= a < n.base + Pow2(32 - prefix) && n.base % Pow2(32 - prefix) == 0
  {
    MaskFits(a, prefix);
    RemainderOf(a / Pow2(32 - prefix), Pow2(32 - prefix), Mask(a, Pow2(32 - prefix)));
    Network(Mask(a, Pow2(32 - prefix)), prefix)
  }

  /** The greatest multiple of the block size that is not above the address. */
  function Mask(a: nat, size: nat): nat
    requires size > 0
  {
    (a / size) * size
  }

  lemma RemainderOf(k: nat, size: nat, y: nat)
    requires size > 0 && y == k * size
    ensures y % size == 0
  {
    var q, r := y / size, y % size;
    Division(y, size);
    if q < k {
      MulMono(q + 1, k, size);
      Distribute(q, size);
    } else if q > k {
      MulMono(k + 1, q, size);
      Distribute(k, size);
    }
  }

  lemma Pow2At32()
    ensures Pow2(32) == SPACE
  {
    assert Pow2(8) == 256;
    Pow2Add(8, 8);
    Pow2Add(16, 16);
  }

  lemma MaskFits(a: Address, prefix: nat)
    requires prefix <= 32
    ensures var size := Pow2(32 - prefix);
            Mask(a, size) <= a < Mask(a, size) + size <= SPACE
  {
    Pow2At32();
    Pow2Add(prefix, 32 - prefix);
    BlockFits(a, Pow2(32 - prefix), Pow2(prefix), SPACE);
  }

  lemma BlockFits(a: nat, size: nat, blocks: nat, space: nat)
    requires size > 0 && a < space == blocks * size
    ensures Mask(a, size) <= a < Mask(a, size) + size <= space
  {
    QuotientBound(a, size, blocks);
    MulMono(a / size + 1, blocks, size);
    Division(a, size);
    Distribute(a / size, size);
  }

  lemma Division(a: nat, size: nat)
    requires size > 0
    ensures a == (a / size) * size + a % size && 0 <= a % size < size
  {
  }

  lemma Distribute(q: nat, size: nat)
    ensures (q + 1) * size == q * size + size
  {
  }

  lemma QuotientBound(a: nat, size: nat, r: nat)
    requires size > 0 && a < r * size
    ensures a / size < r
  {
    var q := a / size;
    if q >= r {
      MulMono(r, q, size);
    }
  }

  lemma MulMono(x: nat, y: nat, size: nat)
    requires x <= y
    ensures x * size <= y * size
  {
  }

  /** The usable hosts of a network: all but the first and the last of a block of more than two. */
  predicate IsHost(n: Network, x: nat)
    requires ValidNetwork(n)
  {
    var size := Pow2(32 - n.prefix);
    n.base <= x < n.base + size && (size > 2 ==> x != n.base && x != n.base + size - 1)
  }

  /** network.hosts(): without network and broadcast address, except that /31 and /32 keep all. */
  function Hosts(n: Network): (hs: seq<Address>)
    requires ValidNetwork(n)
    ensures forall i, j :: 0 <= i < j < |hs| ==> hs[i] < hs[j]
    ensures forall i :: 0 <= i < |hs| ==> IsHost(n, hs[i])
    ensures |hs| == if n.prefix == 32 then 1 else if n.prefix == 31 then 2 else Pow2(32 - n.prefix) - 2
  {
    var size := Pow2(32 - n.prefix);
    if n.prefix == 32 then [n.base]
    else if n.prefix == 31 then
      assert size == 2 * Pow2(0);
      [n.base, n.base + 1]
    else
      assert size == 2 * (2 * Pow2(30 - n.prefix));
      seq(size - 2, i requires 0 <= i < size - 2 => n.base + 1 + i)
  }
}
