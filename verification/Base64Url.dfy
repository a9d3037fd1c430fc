/**
 Unpadded base64url (section 5 of RFC 4648) as three places of the repository use it: the CSR
 fingerprint of step_ca.py, the JWT payload of portal.py, and the PKCE challenge (section 4.2 of
 RFC 7636) and token decoding of keycloak.js.
 */
module Base64Url {
  import opened Common

  type Byte = n: nat | n < 256

  type Sextet = n: nat | n < 64

  /** The standard alphabet, with '+' and '/'. */
  function Symbol(v: Sextet): char {
    if v < 26 then ('A' as int + v) as char
    else if v < 52 then ('a' as int + v - 26) as char
    else if v < 62 then ('0' as int + v - 52) as char
    else if v == 62 then '+' else '/'
  }

  function Value(c: char): Option<Sextet> {
    if 'A' <= c <= 'Z' then Some(c as int - 'A' as int)
    else if 'a' <= c <= 'z' then Some(c as int - 'a' as int + 26)
    else if '0' <= c <= '9' then Some(c as int - '0' as int + 52)
    else if c == '+' then Some(62) else if c == '/' then Some(63) else None
  }

  function ToUrlChar(c: char): char { if c == '+' then '-' else if c == '/' then '_' else c }

  function FromUrlChar(c: char): char { if c == '-' then '+' else if c == '_' then '/' else c }

  lemma SymbolLaws(v: Sextet)
    ensures Value(Symbol(v)) == Some(v)
    ensures Symbol(v) != '=' && ToUrlChar(Symbol(v)) != '=' && FromUrlChar(ToUrlChar(Symbol(v))) == Symbol(v)
  {
  }

  /** The alphabet of section 4 of RFC 4648: three runs of characters and two more, replaced in section 5. */
  lemma AlphabetIsStandard(v: Sextet)
    ensures Symbol(0) == 'A' && Symbol(25) == 'Z' && Symbol(26) == 'a' && Symbol(51) == 'z'
    ensures Symbol(52) == '0' && Symbol(61) == '9' && Symbol(62) == '+' && Symbol(63) == '/'
    ensures v !in {25, 51, 61, 62, 63} ==> Symbol(v + 1) as int == Symbol(v) as int + 1
    ensures ToUrlChar(Symbol(v)) == if v == 62 then '-' else if v == 63 then '_' else Symbol(v)
  {
  }

  /** The four values of three bytes. */
  function FirstValue(x: Byte): Sextet { x / 4 }

  function SecondValue(x: Byte, y: Byte): Sextet { x % 4 * 16 + y / 16 }

  function ThirdValue(y: Byte, z: Byte): Sextet { y % 16 * 4 + z / 64 }

  function FourthValue(z: Byte): Sextet { z % 64 }

  /** Bytes cut into values of six bits, filled up with zero bits at the end. */
  function Cut(b: seq<Byte>): seq<Sextet> {
    if b == [] then []
    else if |b| == 1 then [FirstValue(b[0]), SecondValue(b[0], 0)]
    else if |b| == 2 then [FirstValue(b[0]), SecondValue(b[0], b[1]), ThirdValue(b[1], 0)]
    else [FirstValue(b[0]), SecondValue(b[0], b[1]), ThirdValue(b[1], b[2]), FourthValue(b[2])] + Cut(b[3..])
  }

  function Symbols(vs: seq<Sextet>): string { seq(|vs|, i requires 0 <= i < |vs| => Symbol(vs[i])) }

  /** Characters of the standard encoding that carry bits. */
  function Body(b: seq<Byte>): string { Symbols(Cut(b)) }

  function Padding(n: nat): string { seq(n, i => '=') }

  function PadCount(n: nat): nat { if n % 3 == 0 then 0 else 3 - n % 3 }

  /** Standard base64 with padding: b64encode, and btoa on a binary string. */
  function Encode(b: seq<Byte>): string { Body(b) + Padding(PadCount(|b|)) }

  function MapChars(s: string, f: char -> char): string { seq(|s|, i requires 0 <= i < |s| => f(s[i])) }

  // ---------------------------------------------------------------- the two encoders

  /** rstrip("="). */
  function StripRight(s: string): string {
    if s != "" && s[|s| - 1] == '=' then StripRight(s[..|s| - 1]) else s
  }

  /** replace(/=/g, ''). */
  function RemoveAll(s: string): string {
    if s == "" then "" else (if s[0] == '=' then "" else [s[0]]) + RemoveAll(s[1..])
  }

  /** urlsafe_b64encode(...).rstrip(b"="). */
  function PythonEncode(b: seq<Byte>): string { StripRight(MapChars(Encode(b), ToUrlChar)) }

  /** bytesToBase64(...) with its three replacements. */
  function JsEncode(b: seq<Byte>): string { RemoveAll(MapChars(Encode(b), ToUrlChar)) }

  // ---------------------------------------------------------------- the two decoders

  /** What a decoder has read of a group of four symbols, and what it has put out. */
  datatype Quad = Quad(held: seq<Sextet>, pads: nat, out: seq<Byte>)

  /** The three bytes of four values. */
  function FirstByte(a: Sextet, b: Sextet): Byte { a * 4 + b / 16 }

  function SecondByte(b: Sextet, c: Sextet): Byte { b % 16 * 16 + c / 4 }

  function ThirdByte(c: Sextet, d: Sextet): Byte { c % 4 * 64 + d }

  function Push(q: Quad, v: Sextet): (r: Quad)
    requires |q.held| <= 3
    ensures |r.held| <= 3
  {
    match |q.held|
    case 0 => Quad([v], 0, q.out)
    case 1 => Quad(q.held + [v], 0, q.out + [FirstByte(q.held[0], v)])
    case 2 => Quad(q.held + [v], 0, q.out + [SecondByte(q.held[1], v)])
    case _ => Quad([], 0, q.out + [ThirdByte(q.held[2], v)])
  }

  /**
   binascii.a2b_base64 as Python calls it by default: characters outside the alphabet are passed over,
   enough padding in a group ends the text, and what remains of a group at the end is an error.
   */
  function A2b(s: string, q: Quad): Option<seq<Byte>>
    requires |q.held| <= 3
  {
    if s == "" then
      if q.held == [] then Some(q.out) else None
    else if s[0] == '=' then
      if |q.held| < 2 then A2b(s[1..], q)
      else if |q.held| + q.pads + 1 >= 4 then Some(q.out)
      else A2b(s[1..], q.(pads := q.pads + 1))
    else if Value(s[0]).None? then A2b(s[1..], q)
    else A2b(s[1..], Push(q, Value(s[0]).value))
  }

  const START := Quad([], 0, [])

  predicate IsAscii(s: string) { forall i :: 0 <= i < |s| ==> s[i] < 128 as char }

  predicate IsBlank(c: char) { c == ' ' || c == '\t' || c == '\n' || c == '\r' || c == 12 as char }

  function DropBlanks(s: string): string {
    if s == "" then "" else (if IsBlank(s[0]) then "" else [s[0]]) + DropBlanks(s[1..])
  }

  predicate AllSymbols(s: string) { forall i :: 0 <= i < |s| ==> Value(s[i]).Some? }

  function SymbolValues(s: string): seq<Sextet>
    requires AllSymbols(s)
  {
    seq(|s|, i requires 0 <= i < |s| => Value(s[i]).value)
  }

  /** Three bytes from each four values; two or three values at the end give one or two bytes. */
  function Bytes(vs: seq<Sextet>): seq<Byte> {
    if |vs| < 2 then []
    else if |vs| == 2 then [FirstByte(vs[0], vs[1])]
    else if |vs| == 3 then [FirstByte(vs[0], vs[1]), SecondByte(vs[1], vs[2])]
    else [FirstByte(vs[0], vs[1]), SecondByte(vs[1], vs[2]), ThirdByte(vs[2], vs[3])] + Bytes(vs[4..])
  }

  /** Up to two padding characters at the end of a text of whole groups. */
  function Unpadded(t: string): string {
    if |t| % 4 != 0 || t == "" || t[|t| - 1] != '=' then t
    else if t[|t| - 2] != '=' then t[..|t| - 1] else t[..|t| - 2]
  }

  /** The browser's atob: blanks are dropped first, nothing else outside the alphabet is allowed. */
  function Atob(s: string): Option<seq<Byte>> {
    var t := Unpadded(DropBlanks(s));
    if |t| % 4 == 1 || !AllSymbols(t) then None else Some(Bytes(SymbolValues(t)))
  }

  /** Python's -n % 4. */
  function MissingTo4(n: int): (k: int)
    ensures 0 <= k < 4
  {
    -n % 4
  }

  /** part += "=" * (-len(part) % 4), then urlsafe_b64decode, which refuses text that is not ASCII. */
  function PythonDecode(part: string): Option<seq<Byte>> {
    if !IsAscii(part) then None else A2b(MapChars(part + Padding(MissingTo4(|part|)), FromUrlChar), START)
  }

  /** base64UrlDecode up to atob; None is its own length error or atob's. */
  function JsDecode(input: string): Option<seq<Byte>> {
    var output := MapChars(input, FromUrlChar);
    match |output| % 4
    case 0 => Atob(output)
    case 2 => Atob(output + "==")
    case 3 => Atob(output + "=")
    case _ => None
  }

  // ---------------------------------------------------------------- encoders agree

  predicate NoPadding(s: string) { forall i :: 0 <= i < |s| ==> s[i] != '=' }

  lemma {:induction false} CutLength(b: seq<Byte>)
    ensures |Cut(b)| == |b| / 3 * 4 + (if |b| % 3 == 0 then 0 else |b| % 3 + 1)
  {
    if |b| >= 3 {
      CutLength(b[3..]);
      assert |b[3..]| / 3 == |b| / 3 - 1 && |b[3..]| % 3 == |b| % 3;
    }
  }

  lemma BodyShape(b: seq<Byte>)
    ensures NoPadding(Body(b)) && NoPadding(MapChars(Body(b), ToUrlChar))
    ensures |Body(b)| == |b| / 3 * 4 + (if |b| % 3 == 0 then 0 else |b| % 3 + 1)
    ensures MapChars(MapChars(Body(b), ToUrlChar), FromUrlChar) == Body(b)
  {
    CutLength(b);
    forall i | 0 <= i < |Body(b)|
      ensures Body(b)[i] != '=' && ToUrlChar(Body(b)[i]) != '=' && FromUrlChar(ToUrlChar(Body(b)[i])) == Body(b)[i] {
      SymbolLaws(Cut(b)[i]);
    }
  }

  lemma {:induction false} StripPadding(s: string, n: nat)
    requires NoPadding(s)
    ensures StripRight(s + Padding(n)) == s
  {
    var t := s + Padding(n);
    if n == 0 {
      assert t == s;
    } else {
      assert t[..|t| - 1] == s + Padding(n - 1);
      StripPadding(s, n - 1);
    }
  }

  lemma {:induction false} RemovePadding(s: string, n: nat)
    requires NoPadding(s)
    ensures RemoveAll(s + Padding(n)) == s
    decreases |s| + n
  {
    var t := s + Padding(n);
    if s != "" {
      assert t[1..] == s[1..] + Padding(n);
      RemovePadding(s[1..], n);
      assert s == [s[0]] + s[1..];
    } else if n > 0 {
      assert t[1..] == "" + Padding(n - 1);
      RemovePadding("", n - 1);
    }
  }

  /** The service and the browser encode every byte string alike: the url-safe body without padding. */
  lemma EncodersAgree(b: seq<Byte>)
    ensures PythonEncode(b) == JsEncode(b) == MapChars(Body(b), ToUrlChar)
    ensures |PythonEncode(b)| % 4 != 1 && NoPadding(PythonEncode(b))
  {
    var n := PadCount(|b|);
    var body := MapChars(Body(b), ToUrlChar);
    BodyShape(b);
    MapPadded(Body(b), n);
    StripPadding(body, n);
    RemovePadding(body, n);
    BodyLength(|b|, |body|);
  }

  lemma MapPadded(s: string, n: nat)
    ensures MapChars(s + Padding(n), ToUrlChar) == MapChars(s, ToUrlChar) + Padding(n)
    ensures MapChars(s + Padding(n), FromUrlChar) == MapChars(s, FromUrlChar) + Padding(n)
  {
    MapAppend(s, Padding(n), ToUrlChar);
    MapAppend(s, Padding(n), FromUrlChar);
    assert ToUrlChar('=') == '=' && FromUrlChar('=') == '=';
    assert MapChars(Padding(n), ToUrlChar) == Padding(n);
    assert MapChars(Padding(n), FromUrlChar) == Padding(n);
  }

  lemma MapAppend(s: string, t: string, f: char -> char)
    ensures MapChars(s + t, f) == MapChars(s, f) + MapChars(t, f)
  {
  }

  /** The length of the body is never 1 mod 4, and what is missing to a multiple of 4 is the padding. */
  lemma BodyLength(n: nat, e: nat)
    requires e == n / 3 * 4 + (if n % 3 == 0 then 0 else n % 3 + 1)
    ensures e % 4 != 1 && (0 - e) % 4 == PadCount(n)
  {
    NegMod(e);
  }

  lemma NegMod(k: int)
    ensures -k % 4 == if k % 4 == 0 then 0 else 4 - k % 4
  {
    var q, r := k / 4, k % 4;
    assert -k == 4 * (-q - 1) + (4 - r);
  }

  // ---------------------------------------------------------------- test vectors of section 10 of RFC 4648

  lemma EncodesOne(x: Byte)
    ensures Encode([x]) == [Symbol(FirstValue(x)), Symbol(SecondValue(x, 0)), '=', '=']
    ensures PythonEncode([x]) == [ToUrlChar(Symbol(FirstValue(x))), ToUrlChar(Symbol(SecondValue(x, 0)))]
  {
    EncodersAgree([x]);
    assert Body([x]) == [Symbol(FirstValue(x)), Symbol(SecondValue(x, 0))];
    assert Padding(2) == ['=', '='];
  }

  lemma EncodesTwo(x: Byte, y: Byte)
    ensures Encode([x, y]) == [Symbol(FirstValue(x)), Symbol(SecondValue(x, y)), Symbol(ThirdValue(y, 0)), '=']
    ensures PythonEncode([x, y]) == [ToUrlChar(Symbol(FirstValue(x))), ToUrlChar(Symbol(SecondValue(x, y))),
                                     ToUrlChar(Symbol(ThirdValue(y, 0)))]
  {
    EncodersAgree([x, y]);
    assert Body([x, y]) == [Symbol(FirstValue(x)), Symbol(SecondValue(x, y)), Symbol(ThirdValue(y, 0))];
    assert Padding(1) == ['='];
  }

  lemma EncodesThree(x: Byte, y: Byte, z: Byte)
    ensures Encode([x, y, z])
         == [Symbol(FirstValue(x)), Symbol(SecondValue(x, y)), Symbol(ThirdValue(y, z)), Symbol(FourthValue(z))]
  {
    assert [x, y, z][3..] == [] && Cut([]) == [];
    assert Body([x, y, z])
        == [Symbol(FirstValue(x)), Symbol(SecondValue(x, y)), Symbol(ThirdValue(y, z)), Symbol(FourthValue(z))];
    assert Padding(0) == [];
  }

  /** "f", "fo" and "foo", and two bytes whose encoding has both characters that differ. */
  lemma TestVectors()
    ensures Encode([102]) == "Zg==" && Encode([102, 111]) == "Zm8=" && Encode([102, 111, 111]) == "Zm9v"
    ensures PythonEncode([102]) == JsEncode([102]) == "Zg"
    ensures Encode([251, 255]) == "+/8=" && PythonEncode([251, 255]) == JsEncode([251, 255]) == "-_8"
  {
    EncodesOne(102);
    EncodesTwo(102, 111);
    EncodesThree(102, 111, 111);
    EncodesTwo(251, 255);
    EncodersAgree([102]);
    EncodersAgree([251, 255]);
  }

  // ---------------------------------------------------------------- round trip

  lemma Mixed(hi: nat, lo: nat)
    ensures lo < 16 ==> (hi * 16 + lo) / 16 == hi && (hi * 16 + lo) % 16 == lo
    ensures lo < 4 ==> (hi * 4 + lo) / 4 == hi && (hi * 4 + lo) % 4 == lo
  {
  }

  /** Three bytes cut into four values and put together again. */
  lemma CutTogether(x: Byte, y: Byte, z: Byte)
    ensures FirstByte(FirstValue(x), SecondValue(x, y)) == x
    ensures SecondByte(SecondValue(x, y), ThirdValue(y, z)) == y
    ensures ThirdByte(ThirdValue(y, z), FourthValue(z)) == z
  {
    Mixed(x % 4, y / 16);
    Mixed(y % 16, z / 64);
  }

  lemma BytesCons(w: Sextet, x: Sextet, y: Sextet, z: Sextet, vs: seq<Sextet>)
    ensures Bytes([w, x]) == [FirstByte(w, x)]
    ensures Bytes([w, x, y]) == [FirstByte(w, x), SecondByte(x, y)]
    ensures Bytes([w, x, y, z] + vs) == [FirstByte(w, x), SecondByte(x, y), ThirdByte(y, z)] + Bytes(vs)
  {
    assert ([w, x, y, z] + vs)[4..] == vs;
  }

  lemma {:induction false} BytesOfCut(b: seq<Byte>)
    ensures Bytes(Cut(b)) == b
  {
    hide FirstByte, SecondByte, ThirdByte;
    if b != [] {
      var x := b[0];
      var y := if |b| > 1 then b[1] else 0;
      var z := if |b| > 2 then b[2] else 0;
      var vs := if |b| > 2 then Cut(b[3..]) else [];
      CutTogether(x, y, z);
      BytesCons(FirstValue(x), SecondValue(x, y), ThirdValue(y, z), FourthValue(z), vs);
      if |b| > 2 {
        BytesOfCut(b[3..]);
        assert [x, y, z] + b[3..] == b;
      } else {
        assert b == if |b| == 1 then [x] else [x, y];
      }
    }
  }

  /** Decoded values of an encoding are the bytes. */
  lemma BytesOfBody(b: seq<Byte>)
    ensures AllSymbols(Body(b)) && Bytes(SymbolValues(Body(b))) == b
  {
    var vs := Cut(b);
    forall i | 0 <= i < |vs| ensures Value(Body(b)[i]) == Some(vs[i]) {
      SymbolLaws(vs[i]);
    }
    assert SymbolValues(Body(b)) == vs;
    BytesOfCut(b);
  }

  // ---------------------------------------------------------------- what the decoders do with symbols

  lemma TakesSymbol(c: char, rest: string, q: Quad)
    requires |q.held| <= 3 && Value(c).Some?
    ensures A2b([c] + rest, q) == A2b(rest, Push(q, Value(c).value))
  {
    assert ([c] + rest)[1..] == rest;
  }

  /** Four symbols are three bytes. */
  lemma TakesGroup(m: string, rest: string, out: seq<Byte>)
    requires |m| == 4 && AllSymbols(m)
    ensures A2b(m + rest, Quad([], 0, out)) == A2b(rest, Quad([], 0, out + Bytes(SymbolValues(m))))
  {
    hide FirstByte, SecondByte, ThirdByte;
    var v := SymbolValues(m);
    var x, y, z := FirstByte(v[0], v[1]), SecondByte(v[1], v[2]), ThirdByte(v[2], v[3]);
    assert m + rest == [m[0]] + ([m[1]] + ([m[2]] + ([m[3]] + rest)));
    TakesSymbol(m[0], [m[1]] + ([m[2]] + ([m[3]] + rest)), Quad([], 0, out));
    TakesSymbol(m[1], [m[2]] + ([m[3]] + rest), Quad([v[0]], 0, out));
    TakesSymbol(m[2], [m[3]] + rest, Quad([v[0], v[1]], 0, out + [x]));
    TakesSymbol(m[3], rest, Quad([v[0], v[1], v[2]], 0, out + [x] + [y]));
    assert Bytes(v) == [x, y, z] && out + [x] + [y] + [z] == out + [x, y, z];
  }

  /** The last two or three symbols with their padding. */
  lemma TakesTwo(m: string, out: seq<Byte>)
    requires |m| == 2 && AllSymbols(m)
    ensures A2b(m + "==", Quad([], 0, out)) == Some(out + Bytes(SymbolValues(m)))
  {
    hide FirstByte, SecondByte, ThirdByte;
    var v := SymbolValues(m);
    assert m + "==" == [m[0]] + ([m[1]] + "==") && "=="[1..] == "=";
    TakesSymbol(m[0], [m[1]] + "==", Quad([], 0, out));
    TakesSymbol(m[1], "==", Quad([v[0]], 0, out));
  }

  lemma TakesThree(m: string, out: seq<Byte>)
    requires |m| == 3 && AllSymbols(m)
    ensures A2b(m + "=", Quad([], 0, out)) == Some(out + Bytes(SymbolValues(m)))
  {
    hide FirstByte, SecondByte, ThirdByte;
    var v := SymbolValues(m);
    var x := FirstByte(v[0], v[1]);
    assert m + "=" == [m[0]] + ([m[1]] + ([m[2]] + "="));
    TakesSymbol(m[0], [m[1]] + ([m[2]] + "="), Quad([], 0, out));
    TakesSymbol(m[1], [m[2]] + "=", Quad([v[0]], 0, out));
    TakesSymbol(m[2], "=", Quad([v[0], v[1]], 0, out + [x]));
    assert out + [x] + [SecondByte(v[1], v[2])] == out + Bytes(v);
  }

  /** A single symbol in the last group is an error, whatever padding follows it. */
  lemma {:induction false} TakesLoneSymbol(n: nat, q: Quad)
    requires |q.held| == 1
    ensures A2b(Padding(n), q).None?
  {
    if n > 0 {
      assert Padding(n)[1..] == Padding(n - 1);
      TakesLoneSymbol(n - 1, q);
    }
  }

  lemma BytesSplit(m: string)
    requires AllSymbols(m) && |m| >= 4
    ensures Bytes(SymbolValues(m)) == Bytes(SymbolValues(m[..4])) + Bytes(SymbolValues(m[4..]))
  {
    var vs := SymbolValues(m);
    assert SymbolValues(m[4..]) == vs[4..] && SymbolValues(m[..4]) == vs[..4];
  }

  lemma BytesEmpty()
    ensures SymbolValues("") == [] && Bytes([]) == []
  {
  }

  /** Whole groups of symbols in front of anything. */
  lemma {:induction false} TakesGroups(m: string, k: nat, end: string, rest: string, out: seq<Byte>)
    requires AllSymbols(m) && AllSymbols(end) && |m| == 4 * k
    ensures A2b(m + (end + rest), Quad([], 0, out)) == A2b(end + rest, Quad([], 0, out + Bytes(SymbolValues(m))))
    ensures Bytes(SymbolValues(m + end)) == Bytes(SymbolValues(m)) + Bytes(SymbolValues(end))
  {
    hide A2b, Bytes;
    if k == 0 {
      BytesEmpty();
      assert m + (end + rest) == end + rest && m + end == end && out + [] == out;
    } else {
      var g, r := m[..4], m[4..];
      var front := Bytes(SymbolValues(g));
      TakesGroup(g, r + (end + rest), out);
      assert m + (end + rest) == g + (r + (end + rest));
      TakesGroups(r, k - 1, end, rest, out + front);
      BytesSplit(m);
      SplitBehind(m, end);
      assert out + front + Bytes(SymbolValues(r)) == out + (front + Bytes(SymbolValues(r)));
    }
  }

  lemma SplitBehind(m: string, end: string)
    requires AllSymbols(m) && AllSymbols(end) && |m| >= 4
    ensures Bytes(SymbolValues(m + end)) == Bytes(SymbolValues(m[..4])) + Bytes(SymbolValues(m[4..] + end))
  {
    BytesSplit(m + end);
    assert (m + end)[..4] == m[..4] && (m + end)[4..] == m[4..] + end;
  }

  /** The last group, of fewer than four symbols. */
  lemma TakesLast(end: string, n: nat, out: seq<Byte>)
    requires AllSymbols(end) && |end| < 4 && n == MissingTo4(|end|)
    ensures A2b(end + Padding(n), Quad([], 0, out))
         == if |end| == 1 then None else Some(out + Bytes(SymbolValues(end)))
  {
    hide Bytes;
    BytesEmpty();
    NegMod(|end|);
    if end == "" {
      assert end + Padding(n) == "" && out + [] == out;
    } else if |end| == 1 {
      TakesSymbol(end[0], Padding(n), Quad([], 0, out));
      assert end + Padding(n) == [end[0]] + Padding(n);
      TakesLoneSymbol(n, Quad([SymbolValues(end)[0]], 0, out));
    } else if |end| == 2 {
      TakesTwo(end, out);
      assert Padding(2) == "==";
    } else {
      TakesThree(end, out);
      assert Padding(1) == "=";
    }
  }

  /** Symbols with the padding they need give their bytes; one symbol more than whole groups is an error. */
  lemma TakesAll(m: string, n: nat)
    requires AllSymbols(m) && n == MissingTo4(|m|)
    ensures A2b(m + Padding(n), START) == if |m| % 4 == 1 then None else Some(Bytes(SymbolValues(m)))
  {
    hide A2b, Bytes;
    var g, end, k := SplitGroups(m);
    assert m + Padding(n) == g + (end + Padding(n));
    TakesGroups(g, k, end, Padding(n), []);
    assert [] + Bytes(SymbolValues(g)) == Bytes(SymbolValues(g));
    TakesLast(end, n, Bytes(SymbolValues(g)));
  }

  lemma SplitGroups(m: string) returns (g: string, end: string, k: nat)
    ensures m == g + end && |g| == 4 * k && |end| == |m| % 4 && MissingTo4(|end|) == MissingTo4(|m|)
    ensures AllSymbols(m) ==> AllSymbols(g) && AllSymbols(end)
  {
    k := |m| / 4;
    g, end := m[..4 * k], m[4 * k..];
    NegMod(|m|);
    NegMod(|end|);
  }

  predicate NoBlanks(s: string) { forall i :: 0 <= i < |s| ==> !IsBlank(s[i]) }

  lemma {:induction false} DropsNothing(s: string)
    requires NoBlanks(s)
    ensures DropBlanks(s) == s
  {
    if s != "" {
      DropsNothing(s[1..]);
    }
  }

  lemma SymbolsNotBlank(m: string, n: nat)
    requires AllSymbols(m)
    ensures NoBlanks(m + Padding(n))
  {
  }

  /** atob on symbols with the padding they need. */
  lemma AtobOfSymbols(m: string, n: nat)
    requires AllSymbols(m) && n == MissingTo4(|m|) && |m| % 4 != 1
    ensures Atob(m + Padding(n)) == Some(Bytes(SymbolValues(m)))
  {
    var t := m + Padding(n);
    NegMod(|m|);
    SymbolsNotBlank(m, n);
    DropsNothing(t);
    assert forall i :: 0 <= i < |m| ==> t[i] == m[i] && m[i] != '=';
    assert Unpadded(t) == m;
  }

  lemma DecodeEncode(b: seq<Byte>)
    ensures Atob(Encode(b)) == Some(b) && A2b(Encode(b), START) == Some(b)
  {
    var m := Body(b);
    BodyShape(b);
    BodyLength(|b|, |m|);
    BytesOfBody(b);
    AtobOfSymbols(m, PadCount(|b|));
    TakesAll(m, PadCount(|b|));
  }

  // ---------------------------------------------------------------- where the decoders agree

  predicate UrlSymbols(s: string) { forall i :: 0 <= i < |s| ==> Value(FromUrlChar(s[i])).Some? }

  lemma PythonPads(s: string)
    requires IsAscii(s)
    ensures PythonDecode(s) == A2b(MapChars(s, FromUrlChar) + Padding(MissingTo4(|s|)), START)
  {
    MapPadded(s, MissingTo4(|s|));
  }

  lemma JsPads(s: string)
    ensures JsDecode(s) == if |s| % 4 == 1 then None else Atob(MapChars(s, FromUrlChar) + Padding(MissingTo4(|s|)))
  {
    var m := MapChars(s, FromUrlChar);
    NegMod(|s|);
    assert Padding(0) == "" && Padding(1) == "=" && Padding(2) == "==" && m + "" == m;
  }

  /**
   On texts of the alphabet, the url-safe or the standard one, the two padding rules and decoders
   answer the same: the bytes, or an error iff the length is 1 mod 4.
   */
  lemma DecodersAgree(s: string)
    requires UrlSymbols(s)
    ensures PythonDecode(s) == JsDecode(s)
    ensures PythonDecode(s) == if |s| % 4 == 1 then None else Some(Bytes(SymbolValues(MapChars(s, FromUrlChar))))
  {
    var m := MapChars(s, FromUrlChar);
    assert IsAscii(s) by {
      forall i | 0 <= i < |s| ensures s[i] < 128 as char {
        assert Value(FromUrlChar(s[i])).Some?;
      }
    }
    PythonPads(s);
    JsPads(s);
    TakesAll(m, MissingTo4(|m|));
    if |s| % 4 != 1 {
      AtobOfSymbols(m, MissingTo4(|m|));
    }
  }

  /** What remains when padding is taken off needed just that padding. */
  lemma UnpaddedNeeds(t: string)
    requires |t| % 4 == 0 && |Unpadded(t)| % 4 != 1
    ensures t == Unpadded(t) + Padding(MissingTo4(|Unpadded(t)|))
  {
    var m := Unpadded(t);
    NegMod(|m|);
    if |m| == |t| - 1 {
      assert t == m + "=" && Padding(1) == "=";
    } else if |m| == |t| - 2 {
      assert t == m + "==" && Padding(2) == "==";
    } else {
      assert Padding(0) == "" && t + "" == t;
    }
  }

  /**
   Beyond the alphabet they differ in one direction only: whatever the browser decodes, if there is
   no blank in it, the service decodes to the same bytes.
   */
  lemma JsImpliesPython(s: string)
    requires NoBlanks(s) && JsDecode(s).Some?
    ensures PythonDecode(s) == JsDecode(s)
  {
    var t := MapChars(s, FromUrlChar) + Padding(MissingTo4(|s|));
    JsPads(s);
    PaddedWhole(s, t);
    AtobImpliesA2b(t);
    DecodableIsAscii(s, t, Unpadded(t));
    PythonPads(s);
  }

  lemma PaddedWhole(s: string, t: string)
    requires NoBlanks(s) && t == MapChars(s, FromUrlChar) + Padding(MissingTo4(|s|))
    ensures |t| % 4 == 0 && NoBlanks(t)
  {
    NegMod(|s|);
    assert |t| == |s| + MissingTo4(|s|);
    forall i | 0 <= i < |t| ensures !IsBlank(t[i]) {
      assert t[i] == if i < |s| then FromUrlChar(s[i]) else '=';
    }
  }

  lemma AtobImpliesA2b(t: string)
    requires |t| % 4 == 0 && NoBlanks(t) && Atob(t).Some?
    ensures A2b(t, START) == Atob(t)
    ensures AllSymbols(Unpadded(t)) && t == Unpadded(t) + Padding(MissingTo4(|Unpadded(t)|))
  {
    hide A2b, Bytes;
    DropsNothing(t);
    UnpaddedNeeds(t);
    TakesAll(Unpadded(t), MissingTo4(|Unpadded(t)|));
  }

  lemma DecodableIsAscii(s: string, t: string, m: string)
    requires |s| <= |t| && forall i :: 0 <= i < |s| ==> t[i] == FromUrlChar(s[i])
    requires AllSymbols(m) && t == m + Padding(MissingTo4(|m|))
    ensures IsAscii(s)
  {
    forall i | 0 <= i < |s| ensures s[i] < 128 as char {
      assert t[i] == '=' || (i < |m| && t[i] == m[i] && Value(m[i]).Some?);
    }
  }

  /** Any of the two encoders followed by any of the two decoders gives every byte string back. */
  lemma RoundTrip(b: seq<Byte>)
    ensures PythonDecode(PythonEncode(b)) == Some(b) && JsDecode(PythonEncode(b)) == Some(b)
    ensures PythonDecode(JsEncode(b)) == Some(b) && JsDecode(JsEncode(b)) == Some(b)
  {
    var e := PythonEncode(b);
    EncodersAgree(b);
    UrlBody(b);
    BytesOfBody(b);
    assert UrlSymbols(e) by {
      forall i | 0 <= i < |e| ensures Value(FromUrlChar(e[i])).Some? {
        assert MapChars(e, FromUrlChar)[i] == Body(b)[i];
      }
    }
    DecodersAgree(e);
  }

  lemma UrlBody(b: seq<Byte>)
    ensures var e := MapChars(Body(b), ToUrlChar); MapChars(e, FromUrlChar) == Body(b) && |e| == |Body(b)|
  {
    BodyShape(b);
  }

  /** The text with its last k characters, all padding, taken off: symbols that need at least that padding. */
  predicate PaddedSymbols(s: string, k: nat) {
    && k <= |s| && UrlSymbols(s[..|s| - k]) && s[|s| - k..] == Padding(k)
    && (|s| - k) % 4 != 1 && k <= MissingTo4(|s| - k)
  }

  /** Symbols of the alphabet, with all, some or none of the padding they need. */
  ghost predicate WellFormed(s: string) { exists k: nat :: PaddedSymbols(s, k) }

  lemma PaddingAdds(m: int, k: int)
    requires 0 <= k <= MissingTo4(m) && m % 4 != 1
    ensures MissingTo4(m + k) == MissingTo4(m) - k && (m + k) % 4 != 1
  {
    NegMod(m);
    NegMod(m + k);
  }

  lemma WellFormedDecodes(s: string, k: nat)
    requires PaddedSymbols(s, k)
    ensures JsDecode(s).Some?
  {
    hide Bytes, A2b;
    var body := s[..|s| - k];
    var m := MapChars(body, FromUrlChar);
    PaddingAdds(|body|, k);
    JsPads(s);
    assert s == body + Padding(k);
    MapPadded(body, k);
    assert Padding(k) + Padding(MissingTo4(|s|)) == Padding(MissingTo4(|m|));
    assert MapChars(s, FromUrlChar) + Padding(MissingTo4(|s|)) == m + Padding(MissingTo4(|m|));
    AtobOfSymbols(m, MissingTo4(|m|));
  }

  lemma DecodedIsWellFormed(s: string)
    requires NoBlanks(s) && JsDecode(s).Some?
    ensures WellFormed(s)
  {
    hide Bytes, A2b, Atob, Unpadded, JsDecode, MapChars;
    var t := MapChars(s, FromUrlChar) + Padding(MissingTo4(|s|));
    JsPads(s);
    PaddedWhole(s, t);
    AtobImpliesA2b(t);
    var m := Unpadded(t);
    NegMod(|m|);
    SymbolsInFront(s, t, m);
    var k := |s| - |m|;
    AtobLength(t);
    PaddedParts(s, t, m, k);
    assert PaddedSymbols(s, k);
  }

  lemma AtobLength(t: string)
    requires Atob(t).Some? && NoBlanks(t)
    ensures |Unpadded(t)| % 4 != 1
  {
    DropsNothing(t);
  }

  /** The symbols end where the padding that was added begins, or before. */
  lemma SymbolsInFront(s: string, t: string, m: string)
    requires t == MapChars(s, FromUrlChar) + Padding(MissingTo4(|s|))
    requires AllSymbols(m) && m <= t
    ensures |m| <= |s|
  {
    assert forall j :: |s| <= j < |t| ==> t[j] == '=';
    if m != "" {
      assert t[|m| - 1] == m[|m| - 1] && Value('=').None?;
    }
  }

  lemma PaddedParts(s: string, t: string, m: string, k: nat)
    requires t == MapChars(s, FromUrlChar) + Padding(MissingTo4(|s|)) && t == m + Padding(MissingTo4(|m|))
    requires AllSymbols(m) && |m| + k == |s|
    ensures UrlSymbols(s[..|s| - k]) && s[|s| - k..] == Padding(k) && k <= MissingTo4(|m|)
  {
    assert forall i :: 0 <= i < |s| ==> t[i] == FromUrlChar(s[i]);
    assert forall i :: 0 <= i < |m| ==> t[i] == m[i];
    forall i | |m| <= i < |s| ensures s[i] == '=' {
      assert t[i] == '=';
    }
    assert |t| == |s| + MissingTo4(|s|) == |m| + MissingTo4(|m|);
  }

  /** The browser decodes a text without blanks iff it is well formed. */
  lemma JsDecodesIff(s: string)
    requires NoBlanks(s)
    ensures JsDecode(s).Some? <==> WellFormed(s)
  {
    if JsDecode(s).Some? {
      DecodedIsWellFormed(s);
    }
    if k: nat :| PaddedSymbols(s, k) {
      WellFormedDecodes(s, k);
    }
  }

  /** So on texts without blanks the two agree exactly where the text is well formed or the service refuses it too. */
  lemma DecodersAgreeIff(s: string)
    requires NoBlanks(s)
    ensures PythonDecode(s) == JsDecode(s) <==> WellFormed(s) || PythonDecode(s).None?
  {
    JsDecodesIff(s);
    if WellFormed(s) {
      JsImpliesPython(s);
    }
  }

  /** Elsewhere they need not agree: the service passes over a foreign character, the browser over blanks. */
  lemma DecodersDiffer()
    ensures PythonDecode("!QQ==") == Some([65]) && JsDecode("!QQ==") == None
    ensures PythonDecode("QQ  ") == None && JsDecode("QQ  ") == Some([65])
  {
    ForeignPassedOver();
    BlanksDropped();
    BlanksPassedOver();
  }

  lemma NothingToTranslate(s: string)
    requires '-' !in s && '_' !in s
    ensures MapChars(s, FromUrlChar) == s
  {
    var m := MapChars(s, FromUrlChar);
    forall i | 0 <= i < |s| ensures m[i] == s[i] {
      assert s[i] in s && m[i] == FromUrlChar(s[i]);
    }
  }

  lemma ForeignPassedOver()
    ensures PythonDecode("!QQ==") == Some([65]) && JsDecode("!QQ==") == None
  {
    var s := "!QQ==";
    PythonPads(s);
    JsPads(s);
    NothingToTranslate(s);
    assert MissingTo4(5) == 3 && Padding(3) == "===";
    assert PythonDecode(s) == A2b(s + "===", START);
    assert (s + "===")[1..] == ['Q'] + (['Q'] + "=====");
    assert PythonDecode(s) == A2b(['Q'] + (['Q'] + "====="), START);
    TwoTaken("=====");
    assert "====="[1..] == "====";
  }

  lemma TwoTaken(rest: string)
    ensures A2b(['Q'] + (['Q'] + rest), START) == A2b(rest, Quad([16, 16], 0, [65]))
  {
    TakesSymbol('Q', ['Q'] + rest, START);
    TakesSymbol('Q', rest, Quad([16], 0, []));
    assert [16] + [16] == [16, 16] && [] + [65] == [65];
  }

  lemma BlanksDropped()
    ensures JsDecode("QQ  ") == Some([65])
  {
    hide DropBlanks;
    var s := "QQ  ";
    JsPads(s);
    NothingToTranslate(s);
    assert MissingTo4(4) == 0 && Padding(0) == "" && s + "" == s;
    TwoBlanks();
    assert SymbolValues("QQ") == [16, 16];
  }

  lemma TwoBlanks()
    ensures DropBlanks("QQ  ") == "QQ"
  {
    assert "QQ  "[1..] == "Q  " && "Q  "[1..] == "  " && "  "[1..] == " " && " "[1..] == "";
    assert DropBlanks("  ") == "";
  }

  lemma BlanksPassedOver()
    ensures PythonDecode("QQ  ") == None
  {
    var s := "QQ  ";
    PythonPads(s);
    NothingToTranslate(s);
    assert MissingTo4(4) == 0 && Padding(0) == "" && s + "" == s;
    assert s == ['Q'] + (['Q'] + "  ") && "  "[1..] == " " && " "[1..] == "";
    TwoTaken("  ");
  }

  /** Wherever a blank stands, atob reads the text as if it were not there. */
  lemma {:induction false} AtobIgnoresBlanks(a: string, c: char, b: string)
    requires c in {' ', '\t', '\n', '\r', 12 as char}
    ensures DropBlanks(a + [c] + b) == DropBlanks(a + b)
    ensures Atob(a + [c] + b) == Atob(a + b)
  {
    if a == "" {
      assert (a + [c] + b)[1..] == b && a + b == b;
    } else {
      AtobIgnoresBlanks(a[1..], c, b);
      assert (a + [c] + b)[1..] == a[1..] + [c] + b && (a + b)[1..] == a[1..] + b;
    }
  }

  /** The service refuses text with a character outside ASCII before it decodes anything. */
  lemma NonAsciiRefused(s: string, i: nat)
    requires i < |s| && s[i] >= 128 as char
    ensures PythonDecode(s) == None
  {
  }
}
