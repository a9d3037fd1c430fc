/**
 What the text handling of enroll.c computes, on C strings as values: the escape loop for the CSR,
 the field extractor, and the second unescape pass. EnrollBuffers proves the array code against it.
 Escapes are those of section 7 of RFC 8259.
 */
module EnrollText {
  import opened Common

  // ---------------------------------------------------------------- escaping

  function EscapeChar(c: char): string { if c == '\n' then "\\n" else [c] }

  /** The device's escape: newlines only. */
  function Escape(t: string): string {
    if t == "" then "" else EscapeChar(t[0]) + Escape(t[1..])
  }

  /** How many characters the loop takes before its guard `ei < sizeof - 3` stops it. */
  function Consumed(t: string, limit: int): (n: nat)
    ensures n <= |t|
  {
    if t == "" || limit <= 0 then 0 else 1 + Consumed(t[1..], limit - |EscapeChar(t[0])|)
  }

  lemma {:induction false} ConsumedBounds(t: string, limit: int)
    ensures |Escape(t[..Consumed(t, limit)])| <= if limit <= 0 then 0 else limit + 1
  {
    if t != "" && limit > 0 {
      ConsumedBounds(t[1..], limit - |EscapeChar(t[0])|);
      var k := Consumed(t, limit);
      assert t[..k][1..] == t[1..][..k - 1];
    }
  }

  /** Nothing is cut off iff everything but the last character fits below the guard. */
  lemma {:induction false} NothingCutIff(t: string, limit: int)
    ensures Consumed(t, limit) == |t| <==> t == "" || |Escape(t[..|t| - 1])| < limit
  {
    if t != "" {
      var rest, next := t[1..], limit - |EscapeChar(t[0])|;
      NothingCutIff(rest, next);
      if |t| == 1 {
        assert t[..0] == "";
      } else {
        assert t[..|t| - 1][1..] == rest[..|rest| - 1];
        assert |Escape(t[..|t| - 1])| == |EscapeChar(t[0])| + |Escape(rest[..|rest| - 1])|;
      }
    }
  }

  lemma {:induction false} EscapeAtMostDoubles(t: string)
    ensures |t| <= |Escape(t)| <= 2 * |t|
    ensures (forall i :: 0 <= i < |t| ==> t[i] == '\n') ==> |Escape(t)| == 2 * |t|
  {
    if t != "" {
      EscapeAtMostDoubles(t[1..]);
    }
  }

  /** The sizes are exactly right: what fits the CSR buffer is escaped whole, one more character need not be. */
  lemma EscapeBufferIsTight(t: string)
    ensures |t| < 4096 ==> Consumed(t, 8192 - 3) == |t|
    ensures exists u: string :: |u| == 4096 && Consumed(u, 8192 - 3) < |u|
  {
    NothingCutIff(t, 8192 - 3);
    if t != "" {
      EscapeAtMostDoubles(t[..|t| - 1]);
    }
    var u := seq(4096, i => '\n');
    NothingCutIff(u, 8192 - 3);
    EscapeAtMostDoubles(u[..|u| - 1]);
    ConsumedBounds(u, 8192 - 3);
    assert |u| == 4096 && Consumed(u, 8192 - 3) < |u|;
  }

  // ---------------------------------------------------------------- the field extractor

  /** snprintf into 128 bytes keeps 127 characters. */
  function Search(key: string): string {
    var s := "\"" + key + "\":";
    s[..Min(|s|, 127)]
  }

  /** The word stands at this place of the text. */
  predicate StandsAt(s: string, word: string, k: nat) {
    k + |word| <= |s| && s[k..k + |word|] == word
  }

  /** strstr: the first position where the needle stands. */
  function StrStr(s: string, needle: string): Option<nat> {
    if needle <= s then Some(0)
    else if s == "" then None
    else
      var r := StrStr(s[1..], needle);
      if r.None? then None else Some(r.value + 1)
  }

  lemma StandsLater(s: string, word: string, k: nat)
    requires s != ""
    ensures StandsAt(s, word, k + 1) <==> StandsAt(s[1..], word, k)
  {
    if k + 1 + |word| <= |s| {
      assert s[k + 1..k + 1 + |word|] == s[1..][k..k + |word|];
    }
  }

  /** Some place is answered iff the needle stands there and nowhere before, and none iff it stands nowhere. */
  lemma {:induction false} StrStrFirst(s: string, needle: string)
    ensures StrStr(s, needle).Some? ==>
      && StandsAt(s, needle, StrStr(s, needle).value)
      && forall j :: 0 <= j < StrStr(s, needle).value ==> !StandsAt(s, needle, j)
    ensures StrStr(s, needle).None? ==> forall j :: 0 <= j <= |s| ==> !StandsAt(s, needle, j)
  {
    if !(needle <= s) {
      assert !StandsAt(s, needle, 0);
      if s != "" {
        StrStrFirst(s[1..], needle);
        forall j | 0 < j <= |s| ensures StandsAt(s, needle, j) <==> StandsAt(s[1..], needle, j - 1) {
          StandsLater(s, needle, j - 1);
        }
      }
    }
  }

  /** A place where the needle stands, and no earlier one, is the one that is found. */
  lemma FoundAt(s: string, needle: string, k: nat)
    requires StandsAt(s, needle, k) && forall j :: 0 <= j < k ==> !StandsAt(s, needle, j)
    ensures StrStr(s, needle) == Some(k)
  {
    StrStrFirst(s, needle);
  }

  function SkipSpaces(s: string): string {
    if s != "" && s[0] == ' ' then SkipSpaces(s[1..]) else s
  }

  /** The copy loop: up to a quote, the end, or a full buffer; two escapes are undone, the rest is copied. */
  function ReadValue(s: string, room: nat): string {
    if s == "" || s[0] == '"' || room == 0 then ""
    else if |s| > 1 && s[0] == '\\' && s[1] == 'n' then "\n" + ReadValue(s[2..], room - 1)
    else if |s| > 1 && s[0] == '\\' && s[1] == '\\' then "\\" + ReadValue(s[2..], room - 1)
    else [s[0]] + ReadValue(s[1..], room - 1)
  }

  /** json_get_string with an output buffer of outSize bytes; None is its -1. */
  function GetString(json: string, key: string, outSize: nat): Option<string>
    requires outSize > 0
  {
    match StrStr(json, Search(key))
    case None => None
    case Some(at) =>
      StrStrFirst(json, Search(key));
      FieldValue(json[at + |Search(key)|..], outSize - 1)
  }

  /** What follows the key and its colon: spaces, then a quoted value. */
  function FieldValue(s: string, room: nat): Option<string> {
    var v := SkipSpaces(s);
    if v == "" || v[0] != '"' then None else Some(ReadValue(v[1..], room))
  }

  function HexDigit(n: nat): char
    requires n < 16
  {
    "0123456789abcdef"[n]
  }

  predicate IsControl(c: char) { c < ' ' }

  /** Section 7 of RFC 8259: quote, backslash and the control characters up to U+001F are escaped. */
  function JsonEscapeChar(c: char): string {
    if c == '"' then "\\\""
    else if c == '\\' then "\\\\"
    else if c == '\n' then "\\n"
    else if c == '\r' then "\\r"
    else if c == '\t' then "\\t"
    else if c == 8 as char then "\\b"
    else if c == 12 as char then "\\f"
    else if IsControl(c) then "\\u00" + [HexDigit(c as int / 16), HexDigit(c as int % 16)]
    else [c]
  }

  /** The text of a JSON string as the server writes it, quotes around it aside. */
  function JsonEscape(t: string): string {
    if t == "" then "" else JsonEscapeChar(t[0]) + JsonEscape(t[1..])
  }

  /** No quote and no control character but the newline. */
  predicate PlainChar(c: char) { c != '"' && (c == '\n' || !IsControl(c)) }

  predicate Plain(t: string) { forall c :: c in t ==> PlainChar(c) }

  lemma PlainCons(t: string)
    requires t != ""
    ensures Plain(t) <==> PlainChar(t[0]) && Plain(t[1..])
  {
    assert t == [t[0]] + t[1..];
  }

  /** Reading undoes the escape of a plain character, and of no other. */
  lemma ReadOneEscaped(c: char, tail: string, room: nat)
    requires room > 0
    ensures PlainChar(c) ==> ReadValue(JsonEscapeChar(c) + tail, room) == [c] + ReadValue(tail, room - 1)
    ensures !PlainChar(c) ==>
      var v := ReadValue(JsonEscapeChar(c) + tail, room);
      v != "" && v[0] == '\\' != c
  {
    var s := JsonEscapeChar(c) + tail;
    if c == '\n' || c == '\\' {
      assert s[2..] == tail;
    } else if PlainChar(c) {
      assert s[1..] == tail;
    } else {
      assert s[0] == '\\' && s[1] != 'n' && s[1] != '\\';
    }
  }

  /** The escaped text as it stands in a document, with its closing quote and what follows. */
  function Quoted(t: string, rest: string): string { JsonEscape(t) + "\"" + rest }

  lemma QuotedFront(t: string, rest: string)
    ensures t == "" ==> Quoted(t, rest) != "" && Quoted(t, rest)[0] == '"'
    ensures t != "" ==> Quoted(t, rest) == JsonEscapeChar(t[0]) + Quoted(t[1..], rest)
    ensures Quoted(t, rest) != ""
  {
  }

  lemma TakeCons(t: string, room: nat)
    requires t != "" && room > 0
    ensures t[..Min(room, |t|)] == [t[0]] + t[1..][..Min(room - 1, |t[1..]|)]
  {
  }

  lemma ReadNothing(s: string, room: nat)
    requires s != "" && (s[0] == '"' || room == 0)
    ensures ReadValue(s, room) == ""
  {
  }

  /** As far as there is room the text itself is read iff that part of it is plain. */
  lemma {:induction false} ReadEscapedIff(t: string, rest: string, room: nat)
    ensures ReadValue(Quoted(t, rest), room) == t[..Min(room, |t|)] <==> Plain(t[..Min(room, |t|)])
  {
    hide ReadValue, Quoted, JsonEscapeChar;
    var part := t[..Min(room, |t|)];
    QuotedFront(t, rest);
    if t == "" || room == 0 {
      ReadNothing(Quoted(t, rest), room);
      assert part == "";
    } else {
      var rest' := t[1..][..Min(room - 1, |t[1..]|)];
      ReadEscapedIff(t[1..], rest, room - 1);
      ReadOneEscaped(t[0], Quoted(t[1..], rest), room);
      TakeCons(t, room);
      PlainCons(part);
      assert part[1..] == rest';
      OneMoreIff(t[0], ReadValue(Quoted(t, rest), room), ReadValue(Quoted(t[1..], rest), room - 1), rest',
                 PlainChar(t[0]), Plain(rest'));
    }
  }

  /** One character more in front of two texts. */
  lemma OneMoreIff(c: char, got: string, later: string, expected: string, plainHere: bool, plainLater: bool)
    requires later == expected <==> plainLater
    requires if plainHere then got == [c] + later else got != "" && got[0] != c
    ensures got == [c] + expected <==> plainHere && plainLater
  {
    assert ([c] + later)[1..] == later && ([c] + expected)[1..] == expected;
  }

  /** The reader stops at the first quote at the latest, so nothing behind one is ever read. */
  lemma {:induction false} ReadUpToQuote(s: string, q: nat, room: nat)
    requires q < |s| && s[q] == '"' && forall i :: 0 <= i < q ==> !IsControl(s[i])
    ensures Plain(ReadValue(s, room))
    decreases |s|
  {
    if s[0] != '"' && room > 0 {
      var w := if |s| > 1 && s[0] == '\\' && (s[1] == 'n' || s[1] == '\\') then 2 else 1;
      ReadUpToQuote(s[w..], q - w, room - 1);
    }
  }

  lemma {:induction false} EscapePrintable(t: string)
    ensures forall i :: 0 <= i < |JsonEscape(t)| ==> !IsControl(JsonEscape(t)[i])
  {
    if t != "" {
      EscapePrintable(t[1..]);
      HexPrintable(t[0]);
    }
  }

  lemma HexPrintable(c: char)
    ensures forall i :: 0 <= i < |JsonEscapeChar(c)| ==> !IsControl(JsonEscapeChar(c)[i])
  {
  }

  /** Whatever the text is, only plain characters are read. */
  lemma ReadIsPlain(t: string, rest: string, room: nat)
    ensures Plain(ReadValue(Quoted(t, rest), room))
  {
    var e := JsonEscape(t);
    var s := e + "\"" + rest;
    EscapePrintable(t);
    assert s[|e|] == '"' && forall i :: 0 <= i < |e| ==> s[i] == e[i];
    ReadUpToQuote(s, |e|, room);
  }

  lemma {:induction false} SkipLeading(n: nat, s: string)
    requires s != "" && s[0] != ' '
    ensures SkipSpaces(seq(n, i => ' ') + s) == s
  {
    var t := seq(n, i => ' ') + s;
    if n == 0 {
      assert t == s;
    } else {
      assert t[1..] == seq(n - 1, i => ' ') + s;
      SkipLeading(n - 1, s);
    }
  }

  function Blanks(n: nat): string { seq(n, i => ' ') }

  /** A JSON text in which a key stands with a string value. */
  function Document(pre: string, key: string, spaces: nat, t: string, rest: string): string {
    pre + "\"" + key + "\":" + Blanks(spaces) + "\"" + JsonEscape(t) + "\"" + rest
  }

  /** The quoted key with its colon stands nowhere in the first `upto` places. */
  predicate NotBefore(json: string, key: string, upto: nat) {
    forall j :: 0 <= j < upto ==> !StandsAt(json, "\"" + key + "\":", j)
  }

  /** What the extractor sees behind the first occurrence of a key that fits its search buffer. */
  lemma FieldFound(json: string, key: string, at: nat, behind: string, outSize: nat)
    requires outSize > 0 && |key| <= 124 && NotBefore(json, key, at)
    requires at <= |json| && json[at..] == "\"" + key + "\":" + behind
    ensures GetString(json, key, outSize) == FieldValue(behind, outSize - 1)
  {
    var needle := "\"" + key + "\":";
    assert Search(key) == needle;
    assert json[at..][..|needle|] == needle && json[at..][|needle|..] == behind;
    assert json[at..at + |needle|] == json[at..][..|needle|];
    assert json[at + |needle|..] == json[at..][|needle|..];
    FoundAt(json, needle, at);
  }

  lemma ExtractReads(pre: string, key: string, spaces: nat, t: string, rest: string, outSize: nat)
    requires outSize > 0 && |key| <= 124 && NotBefore(Document(pre, key, spaces, t, rest), key, |pre|)
    ensures GetString(Document(pre, key, spaces, t, rest), key, outSize)
         == Some(ReadValue(Quoted(t, rest), outSize - 1))
  {
    var json, tail := Document(pre, key, spaces, t, rest), "\"" + (JsonEscape(t) + "\"" + rest);
    assert json[|pre|..] == "\"" + key + "\":" + (Blanks(spaces) + tail);
    FieldFound(json, key, |pre|, Blanks(spaces) + tail, outSize);
    SkipLeading(spaces, tail);
    assert tail[1..] == JsonEscape(t) + "\"" + rest;
  }

  /**
   Escape then extract, for a key of at most 124 characters: the text, escaped as the value of the
   first occurrence of the quoted key and cut to the output buffer, is returned as it was iff what is
   left of it has no quote and no control character but the newline.
   */
  lemma ExtractEscaped(pre: string, key: string, spaces: nat, t: string, rest: string, outSize: nat)
    requires outSize > 0 && |key| <= 124 && NotBefore(Document(pre, key, spaces, t, rest), key, |pre|)
    ensures var part := t[..Min(outSize - 1, |t|)];
            GetString(Document(pre, key, spaces, t, rest), key, outSize) == Some(part) <==> Plain(part)
  {
    hide ReadValue, JsonEscape, StrStr;
    ExtractReads(pre, key, spaces, t, rest, outSize);
    ReadEscapedIff(t, rest, outSize - 1);
  }

  /** -1 without the key, and where its first occurrence has no string value; a later one is not looked for. */
  lemma NoStringField(json: string, key: string, at: nat, spaces: nat, v: string, outSize: nat)
    requires outSize > 0 && |key| <= 124 && NotBefore(json, key, at)
    requires at > |json| || (at <= |json| && json[at..] == "\"" + key + "\":" + (Blanks(spaces) + v))
    requires v == "" || (v[0] != ' ' && v[0] != '"')
    ensures GetString(json, key, outSize) == None
  {
    if at > |json| {
      var needle := "\"" + key + "\":";
      assert Search(key) == needle;
      StrStrFirst(json, needle);
    } else {
      FieldFound(json, key, at, Blanks(spaces) + v, outSize);
      if v == "" {
        SkipAll(spaces);
        assert Blanks(spaces) + v == Blanks(spaces);
      } else {
        SkipLeading(spaces, v);
      }
    }
  }

  lemma {:induction false} SkipAll(n: nat)
    ensures SkipSpaces(Blanks(n)) == ""
  {
    if n > 0 {
      assert Blanks(n)[1..] == Blanks(n - 1);
      SkipAll(n - 1);
    }
  }

  /**
   The bound on the key is exact. A longer one is cut by the search buffer, and its value is never
   read: the answer is -1 or, for 126 characters, what stands between the key and the value.
   */
  lemma LongKeyFails(pre: string, key: string, spaces: nat, t: string, rest: string, outSize: nat)
    requires outSize > 0 && |key| > 124 && '"' !in key && ' ' !in key
    requires var json := Document(pre, key, spaces, t, rest);
             forall j :: 0 <= j < |pre| ==> !StandsAt(json, ("\"" + key + "\":")[..127], j)
    ensures GetString(Document(pre, key, spaces, t, rest), key, outSize)
         == if |key| == 126 then Some((":" + Blanks(spaces))[..Min(outSize - 1, 1 + spaces)]) else None
  {
    var json, tail := Document(pre, key, spaces, t, rest), "\"" + (JsonEscape(t) + "\"" + rest);
    var whole := "\"" + key + "\":";
    assert json[|pre|..] == whole + (Blanks(spaces) + tail);
    CutKey(json, key, |pre|, Blanks(spaces) + tail, outSize);
    if |key| == 126 {
      hide JsonEscape, StrStr, Document;
      var between := ":" + Blanks(spaces);
      assert ("\":" + (Blanks(spaces) + tail))[1..] == between + tail;
      ReadToQuote(between, JsonEscape(t) + "\"" + rest, outSize - 1);
    }
  }

  lemma CutKey(json: string, key: string, at: nat, behind: string, outSize: nat)
    requires outSize > 0 && |key| > 124 && '"' !in key && ' ' !in key
    requires forall j :: 0 <= j < at ==> !StandsAt(json, ("\"" + key + "\":")[..127], j)
    requires at <= |json| && json[at..] == "\"" + key + "\":" + behind
    ensures GetString(json, key, outSize)
         == if |key| == 126 then FieldValue("\":" + behind, outSize - 1) else None
  {
    var whole := "\"" + key + "\":";
    var needle, cut := whole[..127], whole[127..];
    assert Search(key) == needle;
    assert json[at..at + 127] == json[at..][..127] == needle;
    FoundAt(json, needle, at);
    assert json[at + 127..] == json[at..][127..] == cut + behind;
    hide StrStr, ReadValue;
    if |key| == 126 {
      assert cut == "\":";
    } else if |key| == 125 {
      assert cut[0] == ':';
    } else {
      assert cut[0] == key[126] && key[126] in key;
    }
  }

  lemma {:induction false} ReadToQuote(w: string, rest: string, room: nat)
    requires '"' !in w && '\\' !in w
    ensures ReadValue(w + ("\"" + rest), room) == w[..Min(room, |w|)]
  {
    if w != "" && room > 0 {
      assert w[0] in w && forall c :: c in w[1..] ==> c in w;
      assert (w + ("\"" + rest))[1..] == w[1..] + ("\"" + rest);
      ReadToQuote(w[1..], rest, room - 1);
      TakeCons(w, room);
    }
  }

  // ---------------------------------------------------------------- the escape is JSON's

  function HexValue(c: char): Option<nat> {
    if '0' <= c <= '9' then Some(c as int - '0' as int)
    else if 'a' <= c <= 'f' then Some(c as int - 'a' as int + 10)
    else None
  }

  /** A reader of the inside of a JSON string, with the escapes of section 7 of RFC 8259 up to U+00FF. */
  function JsonRead(s: string): Option<string> {
    if s == "" then Some("")
    else if s[0] == '"' || IsControl(s[0]) then None
    else if s[0] != '\\' then Behind(s[0], JsonRead(s[1..]))
    else if |s| > 5 && s[1..4] == "u00" && HexValue(s[4]).Some? && HexValue(s[5]).Some? then
      Behind((16 * HexValue(s[4]).value + HexValue(s[5]).value) as char, JsonRead(s[6..]))
    else if |s| > 1 && Short(s[1]).Some? then Behind(Short(s[1]).value, JsonRead(s[2..]))
    else None
  }

  function Short(c: char): Option<char> {
    match c
    case '"' => Some('"')
    case '\\' => Some('\\')
    case '/' => Some('/')
    case 'b' => Some(8 as char)
    case 'f' => Some(12 as char)
    case 'n' => Some(10 as char)
    case 'r' => Some(13 as char)
    case 't' => Some(9 as char)
    case _ => None
  }

  function Behind(c: char, r: Option<string>): Option<string> { if r.None? then None else Some([c] + r.value) }

  lemma HexInverse(n: nat)
    requires n < 16
    ensures HexValue(HexDigit(n)) == Some(n)
  {
    if n < 8 {
      assert n == 0 || n == 1 || n == 2 || n == 3 || n == 4 || n == 5 || n == 6 || n == 7;
    } else {
      assert n == 8 || n == 9 || n == 10 || n == 11 || n == 12 || n == 13 || n == 14 || n == 15;
    }
  }

  lemma JsonReadHex(c: char, tail: string)
    requires IsControl(c) && |JsonEscapeChar(c)| == 6
    ensures JsonRead(JsonEscapeChar(c) + tail) == Behind(c, JsonRead(tail))
  {
    var hi, lo := HexDigit(c as int / 16), HexDigit(c as int % 16);
    HexInverse(c as int / 16);
    HexInverse(c as int % 16);
    var s := JsonEscapeChar(c) + tail;
    hide JsonEscapeChar, HexDigit, HexValue, Short;
    assert s == "\\u00" + [hi, lo] + tail;
    assert s[0] == '\\' && s[1..4] == "u00" && s[4] == hi && s[5] == lo && s[6..] == tail;
  }

  lemma JsonReadShort(c: char, d: char, tail: string)
    requires Short(d) == Some(c) && JsonEscapeChar(c) == ['\\', d]
    ensures JsonRead(JsonEscapeChar(c) + tail) == Behind(c, JsonRead(tail))
  {
    var s := JsonEscapeChar(c) + tail;
    assert d != 'u';
    hide JsonEscapeChar, HexValue, Short;
    assert s[0] == '\\' && s[1] == d && s[2..] == tail;
    assert |s| > 5 ==> s[1..4][0] == d;
  }

  lemma JsonReadOne(c: char, tail: string)
    ensures JsonRead(JsonEscapeChar(c) + tail) == Behind(c, JsonRead(tail))
  {
    var e := JsonEscapeChar(c);
    if |e| == 6 {
      JsonReadHex(c, tail);
    } else if |e| == 2 {
      assert Short(e[1]) == Some(c);
      JsonReadShort(c, e[1], tail);
    } else {
      assert e == [c] && (e + tail)[1..] == tail;
    }
  }

  /** A JSON reader gets every text back from its escape. */
  lemma {:induction false} JsonEscapeReadsBack(t: string)
    ensures JsonRead(JsonEscape(t)) == Some(t)
  {
    if t != "" {
      JsonReadOne(t[0], JsonEscape(t[1..]));
      JsonEscapeReadsBack(t[1..]);
      assert t == [t[0]] + t[1..];
    }
  }

  // ---------------------------------------------------------------- the second pass

  /** Left to right, each backslash-n pair becomes a newline. */
  function Unescape(s: string): string {
    if s == "" then ""
    else if |s| > 1 && s[0] == '\\' && s[1] == 'n' then "\n" + Unescape(s[2..])
    else [s[0]] + Unescape(s[1..])
  }

  predicate HasPair(s: string) {
    exists i :: 0 <= i < |s| - 1 && s[i] == '\\' && s[i + 1] == 'n'
  }

  lemma PairAtFrontOrLater(s: string)
    requires s != ""
    ensures HasPair(s) <==> (|s| > 1 && s[0] == '\\' && s[1] == 'n') || HasPair(s[1..])
  {
    var r := s[1..];
    assert forall i :: 0 <= i < |r| ==> r[i] == s[i + 1];
    assert forall i :: 0 < i < |s| ==> s[i] == r[i - 1];
    if HasPair(s) {
      var i :| 0 <= i < |s| - 1 && s[i] == '\\' && s[i + 1] == 'n';
      assert i == 0 || (r[i - 1] == '\\' && r[i] == 'n');
    }
  }

  lemma {:induction false} UnescapeShrinks(s: string)
    ensures |Unescape(s)| <= |s|
    ensures HasPair(s) ==> |Unescape(s)| < |s|
    ensures !HasPair(s) ==> Unescape(s) == s
  {
    if s != "" {
      PairAtFrontOrLater(s);
      if |s| > 1 && s[0] == '\\' && s[1] == 'n' {
        UnescapeShrinks(s[2..]);
      } else {
        UnescapeShrinks(s[1..]);
        assert s == [s[0]] + s[1..];
      }
    }
  }

  /** The second pass undoes the device's own escape iff the text has no backslash followed by n. */
  lemma {:induction false} EscapeUndoneIff(t: string)
    ensures |Unescape(Escape(t))| <= |t|
    ensures Unescape(Escape(t)) == t <==> !HasPair(t)
  {
    if t != "" {
      PairAtFrontOrLater(t);
      var rest := Escape(t[1..]);
      EscapeUndoneIff(t[1..]);
      assert t == [t[0]] + t[1..];
      if t[0] == '\n' {
        assert Escape(t)[2..] == rest;
      } else if |t| > 1 && t[0] == '\\' && t[1] == 'n' {
        assert t[1..][1..] == t[2..];
        assert Escape(t) == "\\n" + Escape(t[2..]) && Escape(t)[2..] == Escape(t[2..]);
        EscapeUndoneIff(t[2..]);
      } else {
        assert Escape(t)[1..] == rest;
        assert rest != "" ==> rest[0] == EscapeChar(t[1])[0];
      }
    }
  }

  lemma {:induction false} UnescapePlain(s: string)
    requires Plain(s)
    ensures Plain(Unescape(s))
  {
    if s != "" {
      if |s| > 1 && s[0] == '\\' && s[1] == 'n' {
        assert forall c :: c in s[2..] ==> c in s;
        UnescapePlain(s[2..]);
      } else {
        assert s[0] in s && forall c :: c in s[1..] ==> c in s;
        UnescapePlain(s[1..]);
      }
    }
  }

  lemma {:induction false} ReadFits(s: string, room: nat)
    ensures |ReadValue(s, room)| <= room
    decreases room
  {
    if s != "" && s[0] != '"' && room > 0 {
      var w := if |s| > 1 && s[0] == '\\' && (s[1] == 'n' || s[1] == '\\') then 2 else 1;
      ReadFits(s[w..], room - 1);
    }
  }

  /**
   The whole way from the server's text to the file on the device. The extractor undoes two of the
   escapes and cuts what does not fit, and the second pass must find nothing: for every text and
   every buffer, the file holds the text iff it is shorter than the buffer and has no quote, no
   control character but the newline, and no backslash followed by n. The cut part is what is
   stored under the same condition on that part alone. PEM text with plain line feeds has none of
   the characters; with CR LF line ends, or as long as the buffer, it is not stored as it was sent.
   */
  lemma PersistedIff(pre: string, key: string, spaces: nat, t: string, rest: string, outSize: nat)
    requires outSize > 0 && |key| <= 124 && NotBefore(Document(pre, key, spaces, t, rest), key, |pre|)
    ensures var got := GetString(Document(pre, key, spaces, t, rest), key, outSize);
            got.Some? && (Unescape(got.value) == t <==> |t| < outSize && Plain(t) && !HasPair(t))
    ensures var part := t[..Min(outSize - 1, |t|)];
            var got := GetString(Document(pre, key, spaces, t, rest), key, outSize);
            Unescape(got.value) == part <==> Plain(part) && !HasPair(part)
  {
    hide ReadValue, JsonEscape, StrStr, Unescape;
    var part := t[..Min(outSize - 1, |t|)];
    ExtractReads(pre, key, spaces, t, rest, outSize);
    StoredPartIff(t, rest, outSize - 1);
    if |t| < outSize {
      assert part == t;
    } else {
      ReadFits(Quoted(t, rest), outSize - 1);
      UnescapeShrinks(ReadValue(Quoted(t, rest), outSize - 1));
    }
  }

  lemma StoredPartIff(t: string, rest: string, room: nat)
    ensures var part := t[..Min(room, |t|)];
            Unescape(ReadValue(Quoted(t, rest), room)) == part <==> Plain(part) && !HasPair(part)
  {
    hide ReadValue, JsonEscape, Unescape;
    var part := t[..Min(room, |t|)];
    var got := ReadValue(Quoted(t, rest), room);
    ReadEscapedIff(t, rest, room);
    ReadIsPlain(t, rest, room);
    UnescapePlain(got);
    UnescapeShrinks(part);
    UnescapeShrinks(got);
  }

  lemma EscapesCompared(c: char)
    ensures EscapeChar(c) == JsonEscapeChar(c) <==> PlainChar(c) && c != '\\'
    ensures EscapeChar(c) != JsonEscapeChar(c) ==> |EscapeChar(c)| < |JsonEscapeChar(c)|
  {
  }

  /** The device's escape is a JSON escape iff there is no quote, backslash or control character but newlines. */
  lemma {:induction false} EscapeIsJsonIff(t: string)
    ensures |Escape(t)| <= |JsonEscape(t)|
    ensures Escape(t) == JsonEscape(t) <==> Plain(t) && '\\' !in t
  {
    if t != "" {
      EscapeIsJsonIff(t[1..]);
      EscapesCompared(t[0]);
      PlainCons(t);
      assert t == [t[0]] + t[1..];
      if EscapeChar(t[0]) == JsonEscapeChar(t[0]) && Escape(t) == JsonEscape(t) {
        assert Escape(t)[|EscapeChar(t[0])|..] == Escape(t[1..]);
        assert JsonEscape(t)[|EscapeChar(t[0])|..] == JsonEscape(t[1..]);
      }
    }
  }
}
