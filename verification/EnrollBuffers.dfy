/** The buffer code of enroll.c on fixed arrays, proved against EnrollText. */
module EnrollBuffers {
  import opened Common
  import opened EnrollText

  const NUL: char := '\0'

  predicate IsCString(b: seq<char>) { NUL in b }

  /** The text of a buffer: everything before its first NUL. */
  function Text(b: seq<char>): string {
    if b == [] || b[0] == NUL then "" else [b[0]] + Text(b[1..])
  }

  /** The buffer starts with this text and a NUL. */
  ghost predicate Holds(b: seq<char>, t: string) {
    && |t| < |b| && b[|t|] == NUL && NUL !in t
    && forall k :: 0 <= k < |t| ==> b[k] == t[k]
  }

  lemma {:induction false} HoldsText(b: seq<char>)
    requires IsCString(b)
    ensures Holds(b, Text(b))
  {
    if b[0] != NUL {
      HoldsText(b[1..]);
    }
  }

  lemma {:induction false} TextHeld(b: seq<char>, t: string)
    requires Holds(b, t)
    ensures IsCString(b) && Text(b) == t
  {
    if t == "" {
      assert b[0] in b;
    } else {
      assert t[0] in t;
      assert forall c :: c in t[1..] ==> c in t;
      TextHeld(b[1..], t[1..]);
      assert t == [t[0]] + t[1..];
    }
  }

  /** Reading at or before the NUL tells whether the text ends there. */
  lemma TextAt(b: seq<char>, t: string, p: nat)
    requires Holds(b, t) && p <= |t|
    ensures b[p] == NUL <==> p == |t|
    ensures p < |t| ==> t[p] == b[p] && t[p..] != "" && t[p..][0] == b[p]
  {
    if p < |t| {
      assert t[p] in t;
    }
  }

  // ---------------------------------------------------------------- escape

  /** The CSR escape loop; the destination keeps two bytes and a NUL behind its guard. */
  method EscapeCsr(src: array<char>, dst: array<char>)
    requires IsCString(src[..]) && dst.Length >= 3 && src != dst
    modifies dst
    ensures IsCString(dst[..])
    ensures Text(dst[..]) == Escape(Text(src[..])[..Consumed(Text(src[..]), dst.Length - 3)])
  {
    ghost var t := Text(src[..]);
    ghost var total := Consumed(t, dst.Length - 3);
    HoldsText(src[..]);
    TextAt(src[..], t, 0);
    var p, ei := 0, 0;
    assert t[0..] == t && t[..0] == "" && Escape("") == "";
    hide Text, Escape, Consumed;
    while src[p] != NUL && ei < dst.Length - 3
      invariant 0 <= p <= |t| && 0 <= ei <= dst.Length - 2
      invariant dst[..ei] == Escape(t[..p])
      invariant total == p + Consumed(t[p..], dst.Length - 3 - ei)
      invariant src[p] == NUL <==> p == |t|
      decreases |t| - p
    {
      TextAt(src[..], t, p);
      TextAt(src[..], t, p + 1);
      EscapeSnoc(t, p);
      ConsumedAt(t, p, dst.Length - 3 - ei);
      ei := PutEscaped(dst, ei, src[p]);
      p := p + 1;
    }
    ConsumedAt(t, p, dst.Length - 3 - ei);
    EscapeHasNoNul(t[..p]);
    Terminate(dst, ei, Escape(t[..p]));
  }

  lemma ConsumedAt(t: string, p: nat, limit: int)
    requires p <= |t|
    ensures p == |t| || limit <= 0 ==> Consumed(t[p..], limit) == 0
    ensures p < |t| && limit > 0 ==> Consumed(t[p..], limit) == 1 + Consumed(t[p + 1..], limit - |EscapeChar(t[p])|)
  {
    if p < |t| {
      assert t[p..][1..] == t[p + 1..];
    }
  }

  /** One character of the escape loop: two bytes for a newline, one for anything else. */
  method PutEscaped(dst: array<char>, ei: nat, c: char) returns (next: nat)
    requires ei + 2 < dst.Length
    modifies dst
    ensures next == ei + |EscapeChar(c)| && dst[..next] == old(dst[..ei]) + EscapeChar(c)
  {
    next := ei;
    if c == '\n' {
      dst[next] := '\\';
      next := next + 1;
      dst[next] := 'n';
      next := next + 1;
    } else {
      dst[next] := c;
      next := next + 1;
    }
  }

  /** With the sizes of cdm_enroll nothing is cut: the destination always holds the whole escaped text. */
  lemma CsrEscapedWhole(src: seq<char>)
    requires IsCString(src) && |src| == 4096
    ensures Escape(Text(src)[..Consumed(Text(src), 8192 - 3)]) == Escape(Text(src))
  {
    HoldsText(src);
    EscapeBufferIsTight(Text(src));
    assert Text(src)[..|Text(src)|] == Text(src);
  }

  lemma {:induction false} EscapeSnoc(t: string, p: nat)
    requires p < |t|
    ensures Escape(t[..p + 1]) == Escape(t[..p]) + EscapeChar(t[p])
  {
    if p == 0 {
      assert t[..1][1..] == "" && t[..0] == "";
    } else {
      EscapeSnoc(t[1..], p - 1);
      assert t[..p + 1][1..] == t[1..][..p];
      assert t[..p][1..] == t[1..][..p - 1];
    }
  }

  lemma {:induction false} EscapeHasNoNul(t: string)
    requires NUL !in t
    ensures NUL !in Escape(t)
  {
    if t != "" {
      assert t[0] in t;
      EscapeHasNoNul(t[1..]);
    }
  }

  // ---------------------------------------------------------------- json_get_string

  /** What the extractor answers and leaves in its output buffer. */
  predicate Delivered(got: Option<string>, before: seq<char>, after: seq<char>, r: int) {
    && (got.None? ==> r == -1 && after == before)
    && (got.Some? ==> r == |got.value| && IsCString(after) && Text(after) == got.value)
  }

  /** The field extractor; -1 when there is no such string field, else the length copied. */
  method JsonGetString(json: array<char>, key: string, out: array<char>) returns (r: int)
    requires IsCString(json[..]) && out.Length > 0 && json != out
    modifies out
    ensures Delivered(GetString(old(Text(json[..])), key, out.Length), old(out[..]), out[..], r)
  {
    ghost var text := Text(json[..]);
    HoldsText(json[..]);
    var search := Search(key);
    var at := StrStr(Text(json[..]), search);
    if at.None? {
      return -1;
    }
    StrStrFirst(text, search);
    r := ReadField(json, at.value + |search|, out, text);
  }

  /** The part of it behind the key and its colon. */
  method ReadField(json: array<char>, from: nat, out: array<char>, ghost text: string) returns (r: int)
    requires Holds(json[..], text) && from <= |text| && out.Length > 0 && json != out
    modifies out
    ensures Delivered(FieldValue(text[from..], out.Length - 1), old(out[..]), out[..], r)
  {
    var p := FindValue(json, from, text, out.Length - 1);
    if p < 0 {
      return -1;
    }
    r := CopyValue(json, p, out, text);
  }

  /** From behind the colon to the value: the index behind its opening quote, or -1. */
  method FindValue(json: array<char>, from: nat, ghost text: string, ghost room: nat) returns (p: int)
    requires Holds(json[..], text) && from <= |text|
    ensures p < 0 ==> FieldValue(text[from..], room) == None
    ensures p >= 0 ==> p <= |text| && FieldValue(text[from..], room) == Some(ReadValue(text[p..], room))
  {
    p := SkipBlanks(json, from, text);
    SkipStops(text, p);
    if json[p] != '"' {
      return -1;
    }
    assert text[p..][1..] == text[p + 1..];
    p := p + 1;
  }

  lemma SkipStops(text: string, p: nat)
    requires p <= |text| && (p < |text| ==> text[p] != ' ')
    ensures SkipSpaces(text[p..]) == text[p..]
  {
  }

  /** `while (*p == ' ') p++`. */
  method SkipBlanks(json: array<char>, from: nat, ghost text: string) returns (p: nat)
    requires Holds(json[..], text) && from <= |text|
    ensures from <= p <= |text| && SkipSpaces(text[from..]) == SkipSpaces(text[p..])
    ensures json[p] != ' ' && (p < |text| ==> json[p] == text[p]) && (p == |text| ==> json[p] == NUL)
  {
    p := from;
    while json[p] == ' '
      invariant from <= p <= |text|
      invariant SkipSpaces(text[p..]) == SkipSpaces(text[from..])
      decreases |text| - p
    {
      TextAt(json[..], text, p);
      SkipOne(text, p);
      p := p + 1;
    }
    TextAt(json[..], text, p);
  }

  lemma SkipOne(text: string, p: nat)
    requires p < |text| && text[p] == ' '
    ensures SkipSpaces(text[p..]) == SkipSpaces(text[p + 1..])
  {
    assert text[p..][1..] == text[p + 1..];
  }

  /** How many characters the next copied one stands for. */
  function Width(s: string): nat {
    if |s| > 1 && s[0] == '\\' && (s[1] == 'n' || s[1] == '\\') then 2 else 1
  }

  function Decoded(s: string): char
    requires s != ""
  {
    if Width(s) == 1 || s[1] == '\\' then s[0] else '\n'
  }

  lemma ReadStep(s: string, room: nat)
    requires s != "" && s[0] != '"' && room > 0
    ensures Width(s) <= |s| && ReadValue(s, room) == [Decoded(s)] + ReadValue(s[Width(s)..], room - 1)
  {
  }

  lemma CopyStep(done: string, text: string, p: nat, room: nat)
    requires p < |text| && text[p..][0] != '"' && room > 0
    ensures p + Width(text[p..]) <= |text|
    ensures done + ReadValue(text[p..], room)
         == (done + [Decoded(text[p..])]) + ReadValue(text[p + Width(text[p..])..], room - 1)
  {
    var s := text[p..];
    ReadStep(s, room);
    assert text[p + Width(s)..] == s[Width(s)..];
    Associate(done, [Decoded(s)], ReadValue(s[Width(s)..], room - 1));
  }

  lemma ReadEnd(s: string, room: nat)
    requires s == "" || s[0] == '"' || room == 0
    ensures ReadValue(s, room) == ""
  {
  }

  /** The three cases of the loop body. */
  method DecodeAt(json: array<char>, p: nat, ghost text: string) returns (c: char, w: nat)
    requires Holds(json[..], text) && p < |text|
    ensures c == Decoded(text[p..]) && w == Width(text[p..]) && c != NUL && p + w <= |text|
  {
    TextAt(json[..], text, p);
    TextAt(json[..], text, p + 1);
    assert p + 1 < |text| ==> text[p..][1] == json[p + 1];
    if json[p] == '\\' && json[p + 1] == 'n' {
      c, w := '\n', 2;
    } else if json[p] == '\\' && json[p + 1] == '\\' {
      c, w := '\\', 2;
    } else {
      c, w := json[p], 1;
    }
  }

  /** Its copy loop. */
  method CopyValue(json: array<char>, from: nat, out: array<char>, ghost text: string) returns (i: nat)
    requires Holds(json[..], text) && from <= |text| && out.Length > 0 && json != out
    modifies out
    ensures IsCString(out[..]) && i == |Text(out[..])|
    ensures Text(out[..]) == ReadValue(text[from..], out.Length - 1)
  {
    ghost var whole := ReadValue(text[from..], out.Length - 1);
    var p := from;
    i := 0;
    ghost var done: string := "";
    TextAt(json[..], text, p);
    while json[p] != NUL && json[p] != '"' && i < out.Length - 1
      invariant from <= p <= |text| && 0 <= i <= out.Length - 1
      invariant Holds(json[..], text)
      invariant |done| == i && out[..i] == done
      invariant done + ReadValue(text[p..], out.Length - 1 - i) == whole
      invariant json[p] == NUL <==> p == |text|
      invariant p < |text| ==> text[p..] != "" && text[p..][0] == json[p]
      decreases |text| - p
    {
      var c, w := DecodeAt(json, p, text);
      CopyStep(done, text, p, out.Length - 1 - i);
      Put(out, i, c);
      done := done + [c];
      i := i + 1;
      p := p + w;
      TextAt(json[..], text, p);
    }
    ReadEnd(text[p..], out.Length - 1 - i);
    assert done + "" == done;
    ReadNoNul(text[from..], out.Length - 1);
    Terminate(out, i, done);
  }

  lemma {:induction false} ReadNoNul(s: string, room: nat)
    requires NUL !in s
    ensures NUL !in ReadValue(s, room)
    decreases |s|
  {
    if s != "" && s[0] != '"' && room > 0 {
      ReadStep(s, room);
      assert s[0] in s;
      assert forall c :: c in s[Width(s)..] ==> c in s;
      ReadNoNul(s[Width(s)..], room - 1);
    }
  }

  method Terminate(out: array<char>, i: nat, ghost done: string)
    requires i < out.Length && out[..i] == done && NUL !in done
    modifies out
    ensures IsCString(out[..]) && Text(out[..]) == done
  {
    out[i] := NUL;
    assert out[..][..i] == done;
    TextHeld(out[..], done);
  }

  method Put(out: array<char>, i: nat, c: char)
    requires i < out.Length
    modifies out
    ensures out[..i + 1] == old(out[..i]) + [c]
  {
    out[i] := c;
  }

  // ---------------------------------------------------------------- unescaping in place

  /** strlen(buf + from). */
  method StrLen(buf: array<char>, from: nat, ghost t: string) returns (n: nat)
    requires Holds(buf[..], t) && from <= |t|
    ensures from + n == |t|
  {
    n := 0;
    TextAt(buf[..], t, from);
    while buf[from + n] != NUL
      invariant from + n <= |t|
      invariant buf[from + n] == NUL <==> from + n == |t|
      decreases |t| - n
    {
      n := n + 1;
      TextAt(buf[..], t, from + n);
    }
  }

  /** memmove(buf + dst, buf + dst + gap, n): the regions may overlap. */
  method MoveLeft(buf: array<char>, dst: nat, gap: nat, n: nat)
    requires dst + gap + n <= buf.Length
    modifies buf
    ensures forall k :: dst <= k < dst + n ==> buf[k] == old(buf[..])[k + gap]
    ensures forall k :: (0 <= k < dst || dst + n <= k < buf.Length) ==> buf[k] == old(buf[..])[k]
  {
    ghost var b := buf[..];
    var i := dst;
    while i < dst + n
      invariant dst <= i <= dst + n
      invariant forall k :: dst <= k < i ==> buf[k] == b[k + gap]
      invariant forall k :: (0 <= k < dst || i <= k < buf.Length) ==> buf[k] == b[k]
    {
      buf[i] := buf[i + gap];
      i := i + 1;
    }
  }

  /**
   The second pass of cdm_enroll: each backslash-n becomes a newline and the rest of the string
   moves down by one. Reads and writes stay inside the buffer, the string stays terminated, and
   the result is the left-to-right replacement.
   */
  method UnescapeInPlace(buf: array<char>)
    requires IsCString(buf[..])
    modifies buf
    ensures IsCString(buf[..]) && Text(buf[..]) == Unescape(old(Text(buf[..])))
  {
    ghost var t := Text(buf[..]);
    ghost var whole := Unescape(t);
    HoldsText(buf[..]);
    TextAt(buf[..], t, 0);
    assert t[..0] + Unescape(t[0..]) == whole;
    var p := 0;
    while buf[p] != NUL
      invariant 0 <= p <= |t| < buf.Length && Holds(buf[..], t)
      invariant buf[p] == NUL <==> p == |t|
      invariant t[..p] + Unescape(t[p..]) == whole
      decreases |t| - p
    {
      TextAt(buf[..], t, p);
      TextAt(buf[..], t, p + 1);
      UnescapeStep(t, p);
      if buf[p] == '\\' && buf[p + 1] == 'n' {
        ReplacePair(buf, p, t);
        t := Replaced(t, p);
      }
      p := p + 1;
      TextAt(buf[..], t, p);
    }
    assert t[..p] + "" == t;
    TextHeld(buf[..], t);
  }

  /** The text with the pair at p replaced by a newline. */
  function Replaced(t: string, p: nat): string
    requires p + 1 < |t|
  {
    t[..p] + "\n" + t[p + 2..]
  }

  predicate PairAt(t: string, p: nat) { p + 1 < |t| && t[p] == '\\' && t[p + 1] == 'n' }

  /** One turn of the loop moves the boundary between done and undone and changes nothing else. */
  lemma UnescapeStep(t: string, p: nat)
    requires p < |t|
    ensures var t' := if PairAt(t, p) then Replaced(t, p) else t;
            t'[..p + 1] + Unescape(t'[p + 1..]) == t[..p] + Unescape(t[p..])
  {
    var s := t[p..];
    if PairAt(t, p) {
      var t' := Replaced(t, p);
      assert t'[..p + 1] == t[..p] + "\n" && t'[p + 1..] == t[p + 2..] == s[2..];
      Associate(t[..p], "\n", Unescape(s[2..]));
    } else {
      assert t[..p + 1] == t[..p] + [s[0]] && t[p + 1..] == s[1..];
      Associate(t[..p], [s[0]], Unescape(s[1..]));
    }
  }

  lemma Associate(a: string, b: string, c: string)
    ensures (a + b) + c == a + (b + c)
  {
  }

  lemma NoNewNul(t: string, p: nat)
    requires NUL !in t && p + 1 < |t|
    ensures NUL !in t[p := '\n'] && NUL !in Replaced(t, p)
  {
    var t1, t2 := t[p := '\n'], Replaced(t, p);
    assert forall k :: 0 <= k < |t1| ==> t1[k] == '\n' || (t1[k] == t[k] && t[k] in t);
    forall k | 0 <= k < |t2| ensures t2[k] != NUL {
      assert t2[k] == if k < p then t[k] else if k == p then '\n' else t[k + 1];
      assert k < p ==> t[k] in t;
      assert k > p ==> t[k + 1] in t;
    }
  }

  /** One replacement: a newline over the backslash, and the tail with its NUL one place down. */
  method ReplacePair(buf: array<char>, p: nat, ghost t: string)
    requires Holds(buf[..], t) && p + 1 < |t|
    modifies buf
    ensures Holds(buf[..], Replaced(t, p))
  {
    ghost var t1, t2 := t[p := '\n'], Replaced(t, p);
    NoNewNul(t, p);
    buf[p] := '\n';
    assert Holds(buf[..], t1);
    ghost var b := buf[..];
    var n := StrLen(buf, p + 2, t1);
    MoveLeft(buf, p + 1, 1, n + 1);
    assert buf[|t2|] == b[|t1|] == NUL;
    forall k | 0 <= k < |t2| ensures buf[k] == t2[k] {
      assert t2[k] == if k <= p then t1[k] else t1[k + 1];
    }
  }

  // ---------------------------------------------------------------- the response buffer

  /** The buffer libcurl's write callback grows; null until the first chunk. */
  class ResponseBuffer {
    var buf: array?<char>
    var len: nat

    constructor ()
      ensures buf == null && len == 0
    {
      buf, len := null, 0;
    }

    ghost predicate Valid()
      reads this, buf
    {
      if buf == null then len == 0 else len < buf.Length && buf[len] == NUL
    }

    ghost function Contents(): seq<char>
      reads this, buf
      requires Valid()
    {
      if buf == null then [] else buf[..len]
    }

    /** curl_write_cb. When realloc fails it answers 0, which makes libcurl abort the transfer. */
    method Write(chunk: seq<char>, allocationFails: bool) returns (n: nat)
      requires Valid()
      modifies this
      ensures allocationFails ==> n == 0 && buf == null && len == old(len)
      ensures !allocationFails ==>
        && n == |chunk| && Valid() && fresh(buf) && len == old(len) + |chunk|
        && Contents() == old(Contents()) + chunk
    {
      if allocationFails {
        buf := null;
        return 0;
      }
      var grown := new char[len + |chunk| + 1];
      var i := 0;
      while i < len
        invariant 0 <= i <= len && buf == old(buf) && len == old(len) && Valid()
        invariant buf != null ==> forall k :: 0 <= k < i ==> grown[k] == old(buf[k])
        invariant buf == null ==> len == 0
      {
        grown[i] := buf[i];
        i := i + 1;
      }
      i := 0;
      while i < |chunk|
        invariant 0 <= i <= |chunk| && buf == old(buf) && len == old(len) && Valid()
        invariant buf != null ==> forall k :: 0 <= k < len ==> grown[k] == old(buf[k])
        invariant forall k :: 0 <= k < i ==> grown[len + k] == chunk[k]
      {
        grown[len + i] := chunk[i];
        i := i + 1;
      }
      buf := grown;
      len := len + |chunk|;
      buf[len] := NUL;
      n := |chunk|;
      assert Contents() == old(Contents()) + chunk;
    }
  }

  function Concat(chunks: seq<seq<char>>): seq<char> {
    if chunks == [] then [] else Concat(chunks[..|chunks| - 1]) + chunks[|chunks| - 1]
  }

  /**
   A whole transfer: however a body is cut into chunks, the buffer holds the body, unless an
   allocation fails; then libcurl aborts the transfer and no text is left.
   */
  method Receive(chunks: seq<seq<char>>, failsAt: nat) returns (response: ResponseBuffer, complete: bool)
    ensures complete <==> failsAt >= |chunks|
    ensures complete ==> response.Valid() && response.Contents() == Concat(chunks)
    ensures !complete ==> response.buf == null
  {
    response := new ResponseBuffer();
    var i := 0;
    while i < |chunks|
      invariant 0 <= i <= |chunks| && i <= failsAt
      invariant fresh(response) && response.Valid() && response.Contents() == Concat(chunks[..i])
    {
      var n := response.Write(chunks[i], i == failsAt);
      if i == failsAt {
        return response, false;
      }
      assert chunks[..i + 1][..i] == chunks[..i];
      i := i + 1;
    }
    assert chunks[..i] == chunks;
    complete := true;
  }
}
