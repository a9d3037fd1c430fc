/** Splitting text at a separator and joining it again. */
module Text {

  function Join(parts: seq<string>, sep: char): string {
    if parts == [] then ""
    else if |parts| == 1 then parts[0]
    else parts[0] + [sep] + Join(parts[1..], sep)
  }

  /** Never empty; "" splits into one empty part. */
  function Split(s: string, sep: char): (parts: seq<string>)
    ensures parts != []
  {
    if s == "" then [""]
    else
      var rest := Split(s[1..], sep);
      if s[0] == sep then [""] + rest else [[s[0]] + rest[0]] + rest[1..]
  }

  predicate Free(s: string, sep: char) { sep !in s }

  lemma {:induction false} JoinFree(parts: seq<string>, sep: char, c: char)
    requires c != sep && forall p :: p in parts ==> Free(p, c)
    ensures Free(Join(parts, sep), c)
  {
    if |parts| > 1 {
      JoinFree(parts[1..], sep, c);
      assert parts[0] in parts;
    } else if |parts| == 1 {
      assert parts[0] in parts;
    }
  }

  lemma {:induction false} SplitPartsFree(s: string, sep: char)
    ensures forall p :: p in Split(s, sep) ==> Free(p, sep)
  {
    if s != "" {
      SplitPartsFree(s[1..], sep);
      var rest := Split(s[1..], sep);
      assert rest[0] in rest;
    }
  }

  /** Splitting distributes over a separator, wherever else the separator stands. */
  lemma {:induction false} SplitAppend(a: string, b: string, sep: char)
    ensures Split(a + [sep] + b, sep) == Split(a, sep) + Split(b, sep)
  {
    var t := a + [sep] + b;
    if a == "" {
      assert t[1..] == b;
    } else {
      assert t[1..] == a[1..] + [sep] + b;
      SplitAppend(a[1..], b, sep);
      SplitFront(a, a[1..], sep);
      SplitFront(t, t[1..], sep);
      FrontAppend(a[0], Split(a[1..], sep), Split(b, sep), sep);
    }
  }

  /** What one more character in front does to the parts. */
  function Front(c: char, parts: seq<string>, sep: char): seq<string>
    requires parts != []
  {
    if c == sep then [""] + parts else [[c] + parts[0]] + parts[1..]
  }

  lemma SplitFront(s: string, rest: string, sep: char)
    requires s != "" && rest == s[1..]
    ensures Split(s, sep) == Front(s[0], Split(rest, sep), sep)
  {
  }

  lemma FrontAppend(c: char, p: seq<string>, q: seq<string>, sep: char)
    requires p != []
    ensures Front(c, p + q, sep) == Front(c, p, sep) + q
  {
    assert (p + q)[1..] == p[1..] + q;
  }

  lemma SplitFree(s: string, sep: char)
    requires Free(s, sep)
    ensures Split(s, sep) == [s]
  {
    SplitWord(s, "", sep);
  }

  /** Joining what was split gives the text back. */
  lemma {:induction false} JoinSplit(s: string, sep: char)
    ensures Join(Split(s, sep), sep) == s
  {
    if s != "" {
      JoinSplit(s[1..], sep);
      var rest := Split(s[1..], sep);
      var parts := Split(s, sep);
      if s[0] == sep {
        assert parts[1..] == rest;
        assert Join(parts, sep) == "" + [sep] + Join(rest, sep);
      } else if |rest| > 1 {
        assert parts[1..] == rest[1..];
        assert Join(parts, sep) == [s[0]] + (rest[0] + [sep] + Join(rest[1..], sep));
      }
      assert s == [s[0]] + s[1..];
    }
  }

  lemma {:induction false} SplitWord(w: string, tail: string, sep: char)
    requires Free(w, sep)
    ensures Split(w + [sep] + tail, sep) == [w] + Split(tail, sep)
    ensures Split(w, sep) == [w]
  {
    if w == "" {
      assert w + [sep] + tail == [sep] + tail;
      assert ([sep] + tail)[1..] == tail;
    } else {
      assert w[0] in w;
      assert forall c :: c in w[1..] ==> c in w;
      SplitWord(w[1..], tail, sep);
      var s := w + [sep] + tail;
      assert s[1..] == w[1..] + [sep] + tail;
      assert [s[0]] + w[1..] == w;
    }
  }

  /** Splitting what was joined gives the parts back, if none contains the separator. */
  lemma {:induction false} SplitJoin(parts: seq<string>, sep: char)
    requires parts != [] && forall i :: 0 <= i < |parts| ==> Free(parts[i], sep)
    ensures Split(Join(parts, sep), sep) == parts
  {
    if |parts| == 1 {
      SplitWord(parts[0], "", sep);
    } else {
      SplitJoin(parts[1..], sep);
      SplitWord(parts[0], Join(parts[1..], sep), sep);
    }
  }
}
