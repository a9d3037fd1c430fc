/**
 keycloak.js #parseCallbackParams: taking the OAuth parameters out of a query or fragment and
 leaving the rest of it as it was.
 */
module CallbackParams {
  import opened Common
  import opened Text

  /**
   The first entry URLSearchParams finds in one segment, None if there is none. Its percent
   decoding is a parameter of everything below; what matters is when there is no entry at all:
   a leading "?" is dropped, and an empty text has no entries.
   */
  type Decoder = string -> Option<(string, string)>

  ghost predicate DecodesLikeUrl(decode: Decoder) {
    forall s {:trigger decode(s)} :: decode(s).None? <==> s == "" || s == "?"
  }

  type Params = map<string, string>

  /** Segments the loop takes out, seen from the end: the last occurrence of each supported key. */
  function Extracted(decode: Decoder, supported: set<string>, segs: seq<string>): Params {
    if segs == [] then map[]
    else
      var later := Extracted(decode, supported, segs[1..]);
      var entry := decode(segs[0]);
      if entry.Some? && entry.value.0 in supported && entry.value.0 !in later then later[entry.value.0 := entry.value.1]
      else later
  }

  predicate Takes(decode: Decoder, supported: set<string>, seg: string, later: seq<string>) {
    var entry := decode(seg);
    entry.Some? && entry.value.0 in supported && entry.value.0 !in Extracted(decode, supported, later)
  }

  /** The segments left over, in their original order. */
  function Kept(decode: Decoder, supported: set<string>, segs: seq<string>): seq<string> {
    if segs == [] then []
    else if Takes(decode, supported, segs[0], segs[1..]) then Kept(decode, supported, segs[1..])
    else [segs[0]] + Kept(decode, supported, segs[1..])
  }

  /** The text the loop builds from left-over segments, prepending one at a time. */
  function Rebuilt(decode: Decoder, kept: seq<string>): string {
    if kept == [] then ""
    else
      var rest := Rebuilt(decode, kept[1..]);
      if decode(kept[0]).None? then "&" + rest
      else if rest == "" then kept[0] else kept[0] + "&" + rest
  }

  /** The loop, from the last segment to the first. */
  method ParseCallbackParams(decode: Decoder, supported: set<string>, paramsString: string)
    returns (result: string, oauthParams: Params)
    ensures var segs := Split(paramsString, '&');
            && oauthParams == Extracted(decode, supported, segs)
            && result == Rebuilt(decode, Kept(decode, supported, segs))
  {
    var params := Split(paramsString, '&');
    result, oauthParams := "", map[];
    var i := |params|;
    while i > 0
      invariant 0 <= i <= |params|
      invariant oauthParams == Extracted(decode, supported, params[i..])
      invariant result == Rebuilt(decode, Kept(decode, supported, params[i..]))
    {
      i := i - 1;
      var param := params[i];
      assert params[i..][1..] == params[i + 1..] && params[i..][0] == param;
      ghost var kept := Kept(decode, supported, params[i + 1..]);
      assert ([param] + kept)[1..] == kept;
      var entry := decode(param);
      if entry.None? {
        result := "&" + result;
      } else if entry.value.0 in supported && entry.value.0 !in oauthParams {
        oauthParams := oauthParams[entry.value.0 := entry.value.1];
      } else {
        result := if |result| == 0 then param else param + "&" + result;
      }
    }
    assert params[0..] == params;
  }

  // ---------------------------------------------------------------- what it means

  /** Index i holds the last segment with this key. */
  ghost predicate LastWithKey(decode: Decoder, segs: seq<string>, key: string, i: int) {
    && 0 <= i < |segs| && decode(segs[i]).Some? && decode(segs[i]).value.0 == key
    && forall j :: i < j < |segs| ==> decode(segs[j]).None? || decode(segs[j]).value.0 != key
  }

  /** Each supported key that occurs gets the value of its last occurrence, and no other key gets one. */
  lemma {:induction false} LastOccurrenceWins(decode: Decoder, supported: set<string>, segs: seq<string>, key: string)
    ensures key in Extracted(decode, supported, segs)
       <==> key in supported && exists i :: LastWithKey(decode, segs, key, i)
    ensures forall i :: key in supported && LastWithKey(decode, segs, key, i) ==>
      Extracted(decode, supported, segs)[key] == decode(segs[i]).value.1
  {
    if segs != [] {
      var rest := segs[1..];
      LastOccurrenceWins(decode, supported, rest, key);
      forall i | LastWithKey(decode, rest, key, i) ensures LastWithKey(decode, segs, key, i + 1) {
        assert forall j :: i + 1 < j < |segs| ==> segs[j] == rest[j - 1];
      }
      forall i | 0 < i && LastWithKey(decode, segs, key, i) ensures LastWithKey(decode, rest, key, i - 1) {
        assert forall j :: i - 1 < j < |rest| ==> rest[j] == segs[j + 1];
      }
      var here := decode(segs[0]).Some? && decode(segs[0]).value.0 == key;
      if here && key in supported && key !in Extracted(decode, supported, rest) {
        NoLaterOccurrence(decode, rest, key);
        assert forall j :: 0 < j < |segs| ==> segs[j] == rest[j - 1];
        assert LastWithKey(decode, segs, key, 0);
      }
      if LastWithKey(decode, segs, key, 0) {
        forall i ensures !LastWithKey(decode, rest, key, i) {
          if 0 <= i < |rest| {
            assert segs[i + 1] == rest[i];
          }
        }
      }
    }
  }

  /** Without a last occurrence there is none at all. */
  lemma {:induction false} NoLaterOccurrence(decode: Decoder, segs: seq<string>, key: string)
    requires forall i :: !LastWithKey(decode, segs, key, i)
    ensures forall j :: 0 <= j < |segs| ==> decode(segs[j]).None? || decode(segs[j]).value.0 != key
  {
    if segs != [] {
      var rest := segs[1..];
      forall i ensures !LastWithKey(decode, rest, key, i) {
        if LastWithKey(decode, rest, key, i) {
          assert forall j :: i + 1 < j < |segs| ==> segs[j] == rest[j - 1];
          assert LastWithKey(decode, segs, key, i + 1);
        }
      }
      NoLaterOccurrence(decode, rest, key);
      assert forall j :: 0 < j < |segs| ==> segs[j] == rest[j - 1];
      assert !LastWithKey(decode, segs, key, 0);
    }
  }

  /** Segments taken out. */
  function Taken(decode: Decoder, supported: set<string>, segs: seq<string>): seq<string> {
    if segs == [] then []
    else (if Takes(decode, supported, segs[0], segs[1..]) then [segs[0]] else []) + Taken(decode, supported, segs[1..])
  }

  /** Nothing is lost and nothing is kept twice; one segment is taken per extracted key. */
  lemma {:induction false} KeptAndTakenPartition(decode: Decoder, supported: set<string>, segs: seq<string>)
    ensures multiset(Kept(decode, supported, segs)) + multiset(Taken(decode, supported, segs)) == multiset(segs)
    ensures |Taken(decode, supported, segs)| == |Extracted(decode, supported, segs)|
  {
    if segs != [] {
      KeptAndTakenPartition(decode, supported, segs[1..]);
      assert segs == [segs[0]] + segs[1..];
    }
  }

  /** No segment that is a bare "?", and the last one not empty. */
  predicate Clean(kept: seq<string>) {
    && (forall i :: 0 <= i < |kept| ==> kept[i] != "?")
    && (kept != [] ==> kept[|kept| - 1] != "")
  }

  lemma {:induction false} RebuiltNonEmpty(decode: Decoder, kept: seq<string>)
    requires DecodesLikeUrl(decode) && kept != []
    ensures Rebuilt(decode, kept) != ""
  {
    assert decode(kept[0]).Some? ==> kept[0] != "";
  }

  lemma CleanCons(kept: seq<string>)
    requires |kept| > 1
    ensures Clean(kept) <==> kept[0] != "?" && Clean(kept[1..])
  {
    var rest := kept[1..];
    assert rest[|rest| - 1] == kept[|kept| - 1];
    assert forall i :: 0 <= i < |rest| ==> rest[i] == kept[i + 1];
    assert forall i :: 0 < i < |kept| ==> kept[i] == rest[i - 1];
  }

  lemma SameFront(front: string, a: string, b: string)
    ensures front + a == front + b <==> a == b
  {
    assert (front + a)[|front|..] == a && (front + b)[|front|..] == b;
  }

  /** One segment in front of others: the two texts still agree iff they did and it is not a bare "?". */
  lemma RebuiltCons(decode: Decoder, first: string, r: string, j: string)
    requires DecodesLikeUrl(decode) && r != ""
    ensures (if decode(first).None? then "&" + r else first + "&" + r) == first + "&" + j <==> first != "?" && r == j
  {
    assert decode(first).None? <==> first == "" || first == "?";
    if first == "?" {
      assert ("&" + r)[0] == '&' && (first + "&" + j)[0] == '?';
    } else {
      assert first == "" ==> first + "&" == "&";
      SameFront(first + "&", r, j);
    }
  }

  /**
   The rest of the text is the "&"-join of the kept segments in their order iff none of them is a
   bare "?" and the last is not empty; an empty last segment comes out with one "&" too many.
   */
  lemma {:induction false} RebuiltIsJoinIff(decode: Decoder, kept: seq<string>)
    requires DecodesLikeUrl(decode)
    ensures Rebuilt(decode, kept) == Join(kept, '&') <==> Clean(kept)
  {
    if |kept| == 1 {
      assert decode(kept[0]).None? <==> kept[0] == "" || kept[0] == "?";
      assert "&" + "" == "&";
    } else if |kept| > 1 {
      var rest := kept[1..];
      RebuiltIsJoinIff(decode, rest);
      CleanCons(kept);
      RebuiltNonEmpty(decode, rest);
      RebuiltCons(decode, kept[0], Rebuilt(decode, rest), Join(rest, '&'));
    }
  }

  // ---------------------------------------------------------------- the same on the input

  /** Segment i is taken out: its key is supported and does not occur again behind it. */
  ghost predicate TakenAt(decode: Decoder, supported: set<string>, segs: seq<string>, i: int) {
    && 0 <= i < |segs| && decode(segs[i]).Some? && decode(segs[i]).value.0 in supported
    && LastWithKey(decode, segs, decode(segs[i]).value.0, i)
  }

  ghost predicate KeptAt(decode: Decoder, supported: set<string>, segs: seq<string>, i: int) {
    0 <= i < |segs| && !TakenAt(decode, supported, segs, i)
  }

  ghost predicate KeptBehind(decode: Decoder, supported: set<string>, segs: seq<string>, i: int) {
    exists j :: i < j && KeptAt(decode, supported, segs, j)
  }

  /** Segment i is no bare "?", and if it is empty some segment behind it is kept. */
  ghost predicate CleanAt(decode: Decoder, supported: set<string>, segs: seq<string>, i: int) {
    0 <= i < |segs| ==> segs[i] != "?" && (segs[i] == "" ==> KeptBehind(decode, supported, segs, i))
  }

  ghost predicate CleanInput(decode: Decoder, supported: set<string>, segs: seq<string>) {
    forall i :: CleanAt(decode, supported, segs, i)
  }

  lemma KeptAtFront(decode: Decoder, supported: set<string>, segs: seq<string>)
    requires segs != []
    ensures KeptAt(decode, supported, segs, 0) <==> !Takes(decode, supported, segs[0], segs[1..])
  {
    if decode(segs[0]).Some? {
      var key, rest := decode(segs[0]).value.0, segs[1..];
      LastOccurrenceWins(decode, supported, rest, key);
      assert forall j :: 0 < j < |segs| ==> segs[j] == rest[j - 1];
      assert forall j :: 0 <= j < |rest| ==> rest[j] == segs[j + 1];
      if forall i :: !LastWithKey(decode, rest, key, i) {
        NoLaterOccurrence(decode, rest, key);
      }
    }
  }

  lemma KeptAtShift(decode: Decoder, supported: set<string>, segs: seq<string>, i: int)
    requires 0 < i < |segs|
    ensures KeptAt(decode, supported, segs, i) <==> KeptAt(decode, supported, segs[1..], i - 1)
  {
    var rest := segs[1..];
    assert forall j :: 0 < j < |segs| ==> segs[j] == rest[j - 1];
    assert forall j :: 0 <= j < |rest| ==> rest[j] == segs[j + 1];
  }

  lemma {:induction false} SomethingKept(decode: Decoder, supported: set<string>, segs: seq<string>)
    ensures Kept(decode, supported, segs) != [] <==> exists j :: KeptAt(decode, supported, segs, j)
  {
    if segs != [] {
      SomethingKept(decode, supported, segs[1..]);
      KeptAtFront(decode, supported, segs);
      forall j | 0 < j < |segs|
        ensures KeptAt(decode, supported, segs, j) <==> KeptAt(decode, supported, segs[1..], j - 1) {
        KeptAtShift(decode, supported, segs, j);
      }
      if j :| KeptAt(decode, supported, segs[1..], j) {
        assert KeptAt(decode, supported, segs, j + 1);
      }
    }
  }

  /** The kept segments are those of the input at the positions not taken, in the input's order. */
  lemma {:induction false} KeptInOrder(decode: Decoder, supported: set<string>, segs: seq<string>)
    returns (at: seq<nat>)
    ensures |at| == |Kept(decode, supported, segs)|
    ensures forall k, m :: 0 <= k < m < |at| ==> at[k] < at[m]
    ensures forall i: nat :: i in at <==> KeptAt(decode, supported, segs, i)
    ensures forall k :: 0 <= k < |at| ==> at[k] < |segs| && Kept(decode, supported, segs)[k] == segs[at[k]]
  {
    at := [];
    if segs != [] {
      var rest := segs[1..];
      var later := KeptInOrder(decode, supported, rest);
      KeptAtFront(decode, supported, segs);
      forall i | 0 < i < |segs|
        ensures KeptAt(decode, supported, segs, i) <==> KeptAt(decode, supported, rest, i - 1) {
        KeptAtShift(decode, supported, segs, i);
      }
      var shifted := seq(|later|, k requires 0 <= k < |later| => later[k] + 1);
      Shifted(later, shifted);
      at := if Takes(decode, supported, segs[0], rest) then shifted else [0] + shifted;
      forall i: nat ensures i in at <==> KeptAt(decode, supported, segs, i) {
        if i > 0 {
          assert i in at <==> i in shifted;
        }
      }
    }
  }

  lemma Shifted(a: seq<nat>, b: seq<nat>)
    requires |b| == |a| && forall k :: 0 <= k < |a| ==> b[k] == a[k] + 1
    ensures forall i: nat :: i in b <==> i > 0 && i - 1 in a
  {
    forall i: nat | i > 0 && i - 1 in a ensures i in b {
      var k :| 0 <= k < |a| && a[k] == i - 1;
      assert b[k] == i;
    }
  }

  lemma KeptBehindShift(decode: Decoder, supported: set<string>, segs: seq<string>, i: int)
    requires segs != [] && i >= 0
    ensures KeptBehind(decode, supported, segs, i) <==> KeptBehind(decode, supported, segs[1..], i - 1)
  {
    if j :| i - 1 < j && KeptAt(decode, supported, segs[1..], j) {
      KeptAtShift(decode, supported, segs, j + 1);
    }
    if j :| i < j && KeptAt(decode, supported, segs, j) {
      KeptAtShift(decode, supported, segs, j);
    }
  }

  lemma CleanAtShift(decode: Decoder, supported: set<string>, segs: seq<string>, i: int)
    requires segs != [] && i > 0
    ensures CleanAt(decode, supported, segs, i) <==> CleanAt(decode, supported, segs[1..], i - 1)
  {
    KeptBehindShift(decode, supported, segs, i);
  }

  lemma CleanAtFront(decode: Decoder, supported: set<string>, segs: seq<string>)
    requires segs != []
    ensures CleanAt(decode, supported, segs, 0)
       <==> segs[0] != "?" && (segs[0] == "" ==> Kept(decode, supported, segs[1..]) != [])
  {
    SomethingKept(decode, supported, segs[1..]);
    KeptBehindShift(decode, supported, segs, 0);
    if j :| KeptAt(decode, supported, segs[1..], j) {
      assert KeptBehind(decode, supported, segs[1..], -1);
    }
  }

  lemma CleanInputCons(decode: Decoder, supported: set<string>, segs: seq<string>)
    requires segs != []
    ensures CleanInput(decode, supported, segs)
       <==> CleanAt(decode, supported, segs, 0) && CleanInput(decode, supported, segs[1..])
  {
    var rest := segs[1..];
    if CleanAt(decode, supported, segs, 0) && CleanInput(decode, supported, rest) {
      forall i ensures CleanAt(decode, supported, segs, i) {
        if i > 0 {
          CleanAtShift(decode, supported, segs, i);
        }
      }
    }
    if CleanInput(decode, supported, segs) {
      forall i ensures CleanAt(decode, supported, rest, i) {
        if i >= 0 {
          CleanAtShift(decode, supported, segs, i + 1);
        }
      }
    }
  }

  lemma {:induction false} CleanKeptIff(decode: Decoder, supported: set<string>, segs: seq<string>)
    requires DecodesLikeUrl(decode)
    ensures Clean(Kept(decode, supported, segs)) <==> CleanInput(decode, supported, segs)
  {
    if segs != [] {
      CleanKeptIff(decode, supported, segs[1..]);
      CleanInputCons(decode, supported, segs);
      CleanAtFront(decode, supported, segs);
      assert decode(segs[0]).None? <==> segs[0] == "" || segs[0] == "?";
      var kept, rest := Kept(decode, supported, segs), Kept(decode, supported, segs[1..]);
      if !Takes(decode, supported, segs[0], segs[1..]) {
        assert kept == [segs[0]] + rest && kept[1..] == rest;
        if rest != [] {
          CleanCons(kept);
        }
      }
    }
  }

  /**
   For every input text: what is handed back is the "&"-join of the kept segments in their order iff
   no segment of the text is a bare "?" and no empty one is followed by taken ones only.
   */
  lemma RestIsJoinIff(decode: Decoder, supported: set<string>, text: string)
    requires DecodesLikeUrl(decode)
    ensures var segs := Split(text, '&');
            var kept := Kept(decode, supported, segs);
            Rebuilt(decode, kept) == Join(kept, '&') <==> CleanInput(decode, supported, segs)
  {
    RebuiltIsJoinIff(decode, Kept(decode, supported, Split(text, '&')));
    CleanKeptIff(decode, supported, Split(text, '&'));
  }

  /** In particular for every text without empty segments and bare "?". */
  lemma NoEmptySegments(decode: Decoder, supported: set<string>, text: string)
    requires DecodesLikeUrl(decode)
    requires var segs := Split(text, '&'); forall i :: 0 <= i < |segs| ==> segs[i] != "" && segs[i] != "?"
    ensures var segs := Split(text, '&');
            Rebuilt(decode, Kept(decode, supported, segs)) == Join(Kept(decode, supported, segs), '&')
  {
    RestIsJoinIff(decode, supported, text);
  }

  /** The empty text is one empty segment, and comes back as "&". */
  lemma EmptyTextGrows(decode: Decoder, supported: set<string>)
    requires DecodesLikeUrl(decode)
    ensures Rebuilt(decode, Kept(decode, supported, Split("", '&'))) == "&"
  {
    assert Split("", '&') == [""] && decode("").None?;
    assert [""][1..] == [] && Kept(decode, supported, [""]) == [""];
  }

  /** A text that carries no supported parameter comes back unchanged, if it is clean. */
  lemma ForeignTextUnchanged(decode: Decoder, supported: set<string>, text: string)
    requires DecodesLikeUrl(decode) && Clean(Split(text, '&'))
    requires Extracted(decode, supported, Split(text, '&')) == map[]
    ensures Rebuilt(decode, Kept(decode, supported, Split(text, '&'))) == text
  {
    var segs := Split(text, '&');
    KeptWhenNothingTaken(decode, supported, segs);
    RebuiltIsJoinIff(decode, segs);
    JoinSplit(text, '&');
  }

  lemma {:induction false} KeptWhenNothingTaken(decode: Decoder, supported: set<string>, segs: seq<string>)
    requires Extracted(decode, supported, segs) == map[]
    ensures Kept(decode, supported, segs) == segs
  {
    if segs != [] {
      KeptWhenNothingTaken(decode, supported, segs[1..]);
    }
  }
}
