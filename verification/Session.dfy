/**
 The two coalescing queues of keycloak.js. Callers of updateToken share one refresh request;
 callers of #checkLoginIframe share one posted message. Whoever joins while a request is out
 waits for that request's answer.
 */
module Session {
  import opened Common
  import opened TokenExpiry

  /** One call's promise; each call has its own. */
  type Waiter = nat

  datatype Verdict = Resolved(value: bool) | Rejected(error: string)

  /** A queue of unsettled promises, the number of requests out, and the settlements so far. */
  datatype Coalescer = Coalescer(queue: seq<Waiter>, out: nat, settled: seq<(Waiter, Verdict)>)

  const NOBODY := Coalescer([], 0, [])

  /** Push, and start a request when the queue was empty. */
  function Join(c: Coalescer, w: Waiter): Coalescer {
    c.(queue := c.queue + [w], out := if |c.queue + [w]| == 1 then c.out + 1 else c.out)
  }

  function JoinAll(c: Coalescer, ws: seq<Waiter>): Coalescer
    decreases |ws|
  {
    if ws == [] then c else JoinAll(Join(c, ws[0]), ws[1..])
  }

  /** The settlements of a queue, last in first. */
  function Backwards(ws: seq<Waiter>, v: Verdict): seq<(Waiter, Verdict)> {
    if ws == [] then [] else [(ws[|ws| - 1], v)] + Backwards(ws[..|ws| - 1], v)
  }

  function Drain(c: Coalescer, v: Verdict): Coalescer {
    c.(queue := [], settled := c.settled + Backwards(c.queue, v))
  }

  /**
   The answer to a request: user callbacks run and may join, then everyone is settled; None is an
   exception that escapes before the queue is drained.
   */
  function Answer(c: Coalescer, joiners: seq<Waiter>, v: Option<Verdict>): Coalescer {
    if c.out == 0 then c
    else
      var c1 := JoinAll(c.(out := c.out - 1), joiners);
      if v.None? then c1 else Drain(c1, v.value)
  }

  datatype Event =
    | Joins(w: Waiter)
    | Answered(joiners: seq<Waiter>, verdict: Option<Verdict>)

  function Step(c: Coalescer, e: Event): Coalescer {
    match e
    case Joins(w) => Join(c, w)
    case Answered(ws, v) => Answer(c, ws, v)
  }

  function Run(c: Coalescer, es: seq<Event>): Coalescer {
    if es == [] then c else Step(Run(c, es[..|es| - 1]), es[|es| - 1])
  }

  /** A request is out iff somebody waits, and never two. */
  predicate Law(c: Coalescer) { c.out == if c.queue == [] then 0 else 1 }

  /** Waiting for an answer that will never come. */
  predicate Wedged(c: Coalescer) { c.queue != [] && c.out == 0 }

  lemma {:induction false} JoinAllNonEmpty(c: Coalescer, ws: seq<Waiter>)
    requires c.queue != []
    ensures JoinAll(c, ws) == c.(queue := c.queue + ws)
    decreases |ws|
  {
    if ws != [] {
      JoinAllNonEmpty(Join(c, ws[0]), ws[1..]);
      assert c.queue + [ws[0]] + ws[1..] == c.queue + ws;
    } else {
      assert c.queue + ws == c.queue;
    }
  }

  /**
   The coalescing law is kept by every call, and by an answer iff no exception escapes it;
   an escape leaves the queue wedged.
   */
  lemma LawKeptIff(c: Coalescer, e: Event)
    requires Law(c)
    ensures Law(Step(c, e)) <==> !(e.Answered? && c.out > 0 && e.verdict.None?)
    ensures !Law(Step(c, e)) ==> Wedged(Step(c, e))
  {
    if e.Answered? && c.out > 0 {
      JoinAllNonEmpty(c.(out := 0), e.joiners);
    }
  }

  /** Everyone waiting when an answer comes, and everyone who joins during it, is settled with that answer. */
  lemma AnswerSettlesAll(c: Coalescer, joiners: seq<Waiter>, v: Verdict)
    requires Law(c) && c.out > 0
    ensures Answer(c, joiners, Some(v)) == Coalescer([], 0, c.settled + Backwards(c.queue + joiners, v))
    ensures forall w :: w in c.queue + joiners ==> (w, v) in Answer(c, joiners, Some(v)).settled
  {
    JoinAllNonEmpty(c.(out := 0), joiners);
    BackwardsMembers(c.queue + joiners, v);
  }

  /** After the answer nobody waits, and everyone in `ws` was given this verdict, the last one first. */
  predicate SettledAs(before: Coalescer, after: Coalescer, ws: seq<Waiter>, v: Verdict) {
    && after.queue == [] && after.out == 0
    && |after.settled| == |before.settled| + |ws|
    && after.settled[..|before.settled|] == before.settled
    && forall k :: 0 <= k < |ws| ==> after.settled[|after.settled| - 1 - k] == (ws[k], v)
  }

  /** Nobody was settled, and with `ws` more waiting no request is out. */
  predicate LeftWaiting(before: Coalescer, after: Coalescer, ws: seq<Waiter>) {
    after.queue == before.queue + ws && after.out == 0 && after.settled == before.settled
  }

  lemma {:induction false} BackwardsAt(ws: seq<Waiter>, v: Verdict, k: nat)
    requires k < |ws|
    ensures |Backwards(ws, v)| == |ws| && Backwards(ws, v)[|ws| - 1 - k] == (ws[k], v)
  {
    var init := ws[..|ws| - 1];
    if init != [] {
      BackwardsAt(init, v, if k < |init| then k else 0);
    }
  }

  /** An answer with a verdict settles everyone with it; one without settles nobody. */
  lemma AnswerMeans(c: Coalescer, joiners: seq<Waiter>, v: Option<Verdict>)
    requires Law(c) && c.out > 0
    ensures v.Some? ==> SettledAs(c, Answer(c, joiners, v), c.queue + joiners, v.value)
    ensures v.None? ==> LeftWaiting(c, Answer(c, joiners, v), joiners)
  {
    JoinAllNonEmpty(c.(out := 0), joiners);
    if v.Some? {
      var ws := c.queue + joiners;
      BackwardsAt(ws, v.value, 0);
      forall k | 0 <= k < |ws| ensures Backwards(ws, v.value)[|ws| - 1 - k] == (ws[k], v.value) {
        BackwardsAt(ws, v.value, k);
      }
    }
  }

  lemma {:induction false} BackwardsMembers(ws: seq<Waiter>, v: Verdict)
    ensures forall w :: w in ws ==> (w, v) in Backwards(ws, v)
    ensures Waiters(Backwards(ws, v)) == multiset(ws)
  {
    if ws != [] {
      var init, last := ws[..|ws| - 1], ws[|ws| - 1];
      BackwardsMembers(init, v);
      assert ws == init + [last];
      WaitersAppend([(last, v)], Backwards(init, v));
      assert [(last, v)][..0] == [] && Waiters([(last, v)][..0]) == multiset{};
      assert Waiters([(last, v)]) == multiset{last};
    }
  }

  /** Who was settled, with multiplicity. */
  function Waiters(log: seq<(Waiter, Verdict)>): multiset<Waiter> {
    if log == [] then multiset{} else Waiters(log[..|log| - 1]) + multiset{log[|log| - 1].0}
  }

  lemma {:induction false} WaitersAppend(a: seq<(Waiter, Verdict)>, b: seq<(Waiter, Verdict)>)
    ensures Waiters(a + b) == Waiters(a) + Waiters(b)
    decreases |b|
  {
    if b == [] {
      assert a + b == a;
    } else {
      assert (a + b)[..|a + b| - 1] == a + b[..|b| - 1];
      WaitersAppend(a, b[..|b| - 1]);
    }
  }

  /** Everyone who ever joined in a run. */
  function Joined(c: Coalescer, es: seq<Event>): multiset<Waiter> {
    if es == [] then multiset{}
    else
      var before, e := es[..|es| - 1], es[|es| - 1];
      Joined(c, before)
      + match e
        case Joins(w) => multiset{w}
        case Answered(ws, _) => if Run(c, before).out > 0 then multiset(ws) else multiset{}
  }

  lemma {:induction false} JoinAllQueue(c: Coalescer, ws: seq<Waiter>)
    ensures JoinAll(c, ws).queue == c.queue + ws && JoinAll(c, ws).settled == c.settled
    decreases |ws|
  {
    if ws != [] {
      JoinAllQueue(Join(c, ws[0]), ws[1..]);
      assert c.queue + [ws[0]] + ws[1..] == c.queue + ws;
    } else {
      assert c.queue + ws == c.queue;
    }
  }

  /** Settlement is conserved in every run, wedged or not: who joined is settled once or still queued once. */
  lemma {:induction false} SettledExactlyOnce(es: seq<Event>)
    ensures var c := Run(NOBODY, es); Joined(NOBODY, es) == Waiters(c.settled) + multiset(c.queue)
  {
    if es != [] {
      var before, e := es[..|es| - 1], es[|es| - 1];
      var c := Run(NOBODY, before);
      SettledExactlyOnce(before);
      if e.Answered? && c.out > 0 {
        var c1 := JoinAll(c.(out := c.out - 1), e.joiners);
        JoinAllQueue(c.(out := c.out - 1), e.joiners);
        if e.verdict.Some? {
          BackwardsMembers(c1.queue, e.verdict.value);
          WaitersAppend(c1.settled, Backwards(c1.queue, e.verdict.value));
        }
      }
    }
  }

  predicate NothingEscapes(es: seq<Event>) { forall i :: 0 <= i < |es| ==> !(es[i].Answered? && es[i].verdict.None?) }

  /** In every run without an escape the law holds throughout. */
  lemma {:induction false} LawHoldsInRuns(es: seq<Event>)
    requires NothingEscapes(es)
    ensures Law(Run(NOBODY, es))
  {
    if es != [] {
      LawHoldsInRuns(es[..|es| - 1]);
      LawKeptIff(Run(NOBODY, es[..|es| - 1]), es[|es| - 1]);
    }
  }

  /** After an escape nothing is ever settled again: no request goes out, and every later caller waits for ever. */
  lemma {:induction false} WedgedForever(c: Coalescer, es: seq<Event>)
    requires Wedged(c)
    ensures Wedged(Run(c, es)) && Run(c, es).settled == c.settled
  {
    if es != [] {
      WedgedForever(c, es[..|es| - 1]);
    }
  }

  // ---------------------------------------------------------------- the code

  /** What user code called back by the adapter does: calls that reach the queue, and whether it throws. */
  datatype Callback = Callback(calls: seq<Waiter>, throws: bool)

  /** How a refresh request ends, and how the callbacks on its way behave. */
  datatype RefreshResponse = RefreshResponse(
    ok: bool,                // the fetch was fulfilled
    badRequest: bool,        // otherwise: it failed with status 400
    tokenUnreadable: bool,   // decodeToken throws inside #setToken
    onSuccess: Callback,     // with onTokenExpired, when #setToken finds the new token expired
    onLogout: Callback,      // via clearToken
    onError: Callback)

  datatype IframeMessage = Unchanged | Changed | ErrorMessage | OtherData

  /** Who joins during a refresh response, and everyone's verdict; None if an exception escapes the catch block. */
  function RefreshEvent(r: RefreshResponse): Event {
    if r.ok && !r.tokenUnreadable && !r.onSuccess.throws then Answered(r.onSuccess.calls, Some(Resolved(true)))
    else
      var tried := if r.ok && !r.tokenUnreadable then r.onSuccess.calls else [];
      if !r.ok && r.badRequest then
        if r.onLogout.throws then Answered(tried + r.onLogout.calls, None)
        else Answered(tried + r.onLogout.calls + r.onError.calls,
                      if r.onError.throws then None else Some(Rejected("refresh failed")))
      else Answered(tried + r.onError.calls, if r.onError.throws then None else Some(Rejected("refresh failed")))
  }

  function IframeEvent(m: IframeMessage, onLogout: Callback): Event
    requires !m.OtherData?
  {
    match m
    case Unchanged => Answered([], Some(Resolved(true)))
    case Changed => Answered(onLogout.calls, if onLogout.throws then None else Some(Resolved(false)))
    case ErrorMessage =>
      Answered(onLogout.calls, if onLogout.throws then None else Some(Rejected("Error while checking login iframe")))
  }

  /**
   What a response does to the queue it finds. A readable token whose callback returns resolves
   everyone with true. Anything else goes through the error callbacks and rejects everyone, unless
   one of those throws; then nobody hears anything.
   */
  predicate RefreshSettles(before: Coalescer, after: Coalescer, r: RefreshResponse) {
    var readable := r.ok && !r.tokenUnreadable;
    var loggedOut := !r.ok && r.badRequest;
    var tried := if readable then r.onSuccess.calls else if loggedOut then r.onLogout.calls else [];
    if readable && !r.onSuccess.throws then
      SettledAs(before, after, before.queue + r.onSuccess.calls, Resolved(true))
    else if loggedOut && r.onLogout.throws then LeftWaiting(before, after, r.onLogout.calls)
    else if r.onError.throws then LeftWaiting(before, after, tried + r.onError.calls)
    else SettledAs(before, after, before.queue + tried + r.onError.calls, Rejected("refresh failed"))
  }

  /** What the iframe's reply does to the list it finds: still logged in, logged out, or an error. */
  predicate ReplySettles(before: Coalescer, after: Coalescer, m: IframeMessage, onLogout: Callback) {
    if m.Unchanged? then SettledAs(before, after, before.queue, Resolved(true))
    else if onLogout.throws then LeftWaiting(before, after, onLogout.calls)
    else SettledAs(before, after, before.queue + onLogout.calls,
                   if m.Changed? then Resolved(false) else Rejected("Error while checking login iframe"))
  }

  lemma RefreshEventSettles(c: Coalescer, r: RefreshResponse)
    requires Law(c) && c.out > 0
    ensures RefreshSettles(c, Step(c, RefreshEvent(r)), r)
  {
    var e := RefreshEvent(r);
    AnswerMeans(c, e.joiners, e.verdict);
    assert Step(c, e) == Answer(c, e.joiners, e.verdict);
    hide SettledAs, LeftWaiting, Answer, Step, Law;
    var readable, loggedOut := r.ok && !r.tokenUnreadable, !r.ok && r.badRequest;
    var tried := if readable then r.onSuccess.calls else if loggedOut then r.onLogout.calls else [];
    if !(readable && !r.onSuccess.throws) {
      if loggedOut && r.onLogout.throws {
        assert e.joiners == r.onLogout.calls;
      } else {
        assert e.joiners == tried + r.onError.calls;
        assert c.queue + (tried + r.onError.calls) == c.queue + tried + r.onError.calls;
      }
    }
  }

  lemma IframeEventSettles(c: Coalescer, m: IframeMessage, onLogout: Callback)
    requires Law(c) && c.out > 0 && !m.OtherData?
    ensures ReplySettles(c, Step(c, IframeEvent(m, onLogout)), m, onLogout)
  {
    var e := IframeEvent(m, onLogout);
    AnswerMeans(c, e.joiners, e.verdict);
    assert c.queue + [] == c.queue;
  }

  class Keycloak {
    var refreshQueue: seq<Waiter>
    var fetches: nat                       // refresh requests out
    var refreshed: seq<(Waiter, Verdict)>
    var callbackList: seq<Waiter>
    var posts: nat                         // messages to the iframe without a reply
    var checked: seq<(Waiter, Verdict)>

    constructor ()
      ensures Refresh() == NOBODY && Iframe() == NOBODY
    {
      refreshQueue, fetches, refreshed := [], 0, [];
      callbackList, posts, checked := [], 0, [];
    }

    function Refresh(): Coalescer
      reads this
    {
      Coalescer(refreshQueue, fetches, refreshed)
    }

    function Iframe(): Coalescer
      reads this
    {
      Coalescer(callbackList, posts, checked)
    }

    /** updateToken once it has decided to refresh. */
    method QueueRefresh(w: Waiter)
      modifies this`refreshQueue, this`fetches
      ensures Refresh() == Join(old(Refresh()), w)
      ensures refreshQueue == old(refreshQueue) + [w]
      ensures fetches == old(fetches) + if old(refreshQueue) == [] then 1 else 0
    {
      refreshQueue := refreshQueue + [w];
      if |refreshQueue| == 1 {
        fetches := fetches + 1;
      }
    }

    /**
     updateToken up to its first suspension: without a refresh token it throws; true means it waits
     for a login check, which happens iff the check is enabled and its iframe is there.
     */
    method BeginUpdateToken(s: Session, checkEnabled: bool, iframeReady: bool, w: Waiter)
      returns (r: Result<bool, string>)
      modifies this`callbackList, this`posts
      ensures r.Err? <==> !s.refreshToken
      ensures r.Err? ==> r.error == "Unable to update token, no refresh token available."
      ensures r.Ok? ==> r.value == (checkEnabled && iframeReady)
      ensures Iframe() == if r == Ok(true) then Join(old(Iframe()), w) else old(Iframe())
    {
      if !s.refreshToken {
        return Err("Unable to update token, no refresh token available.");
      }
      if checkEnabled {
        if iframeReady {
          CheckLoginIframe(w);
          return Ok(true);
        }
      }
      r := Ok(false);
    }

    /**
     The rest up to its promise, on the session as it is by then: a rejected login check is thrown
     on, whether the user is still logged in does not matter; with enough validity left it answers
     false, otherwise its promise joins the queue.
     */
    method ResumeUpdateToken(s: Session, check: Option<Verdict>, minValidity: Option<real>, now: Millis, w: Waiter)
      returns (r: Result<bool, string>)
      modifies this`refreshQueue, this`fetches
      ensures check.Some? && check.value.Rejected? ==> r == Err(check.value.error)
      ensures !(check.Some? && check.value.Rejected?) ==> r == NeedsRefresh(s, minValidity, now)
      ensures Refresh() == if r == Ok(true) then Join(old(Refresh()), w) else old(Refresh())
      ensures s.token.None? || minValidity == Some(-1.0) ==>
        r == if check.Some? && check.value.Rejected? then Err(check.value.error) else Ok(true)
      ensures forall acquired :: Calibrated(s, acquired) && r.Ok? ==>
        var validity := if minValidity == None || minValidity == Some(0.0) then 5.0 else minValidity.value;
        var elapsed, lifetime := (now - acquired) / 1000.0, s.token.value.exp.value - s.token.value.iat;
        && (r == Ok(false) ==> elapsed + validity <= lifetime)
        && (r == Ok(true) ==> validity == -1.0 || elapsed + validity > lifetime - 2.0)
    {
      if check.Some? && check.value.Rejected? {
        return Err(check.value.error);
      }
      RefreshDecided(s, minValidity, now);
      forall acquired | Calibrated(s, acquired)
        ensures var validity := if minValidity == None || minValidity == Some(0.0) then 5.0 else minValidity.value;
                var elapsed, lifetime := (now - acquired) / 1000.0, s.token.value.exp.value - s.token.value.iat;
                && (NeedsRefresh(s, minValidity, now) == Ok(false) ==> elapsed + validity <= lifetime)
                && (NeedsRefresh(s, minValidity, now) == Ok(true) ==>
                      validity == -1.0 || elapsed + validity > lifetime - 2.0) {
        NoRefreshMeansValid(s, acquired, now, minValidity);
      }
      var validity := if minValidity.None? || minValidity.value == 0.0 then 5.0 else minValidity.value;
      var refresh := false;
      if validity == -1.0 {
        refresh := true;
      } else if s.token.None? {
        refresh := true;
      } else {
        var expired := IsTokenExpired(s, validity, now);
        if expired.Err? {
          return expired;
        }
        refresh := expired.value;
      }
      if !refresh {
        return Ok(false);
      }
      QueueRefresh(w);
      r := Ok(true);
    }

    /** A callback may call updateToken again before it returns or throws. */
    method RunCallback(cb: Callback)
      modifies this`refreshQueue, this`fetches
      ensures Refresh() == JoinAll(old(Refresh()), cb.calls)
    {
      var i := 0;
      while i < |cb.calls|
        invariant 0 <= i <= |cb.calls|
        invariant refreshed == old(refreshed)
        invariant JoinAll(Refresh(), cb.calls[i..]) == JoinAll(old(Refresh()), cb.calls)
      {
        QueueRefresh(cb.calls[i]);
        assert cb.calls[i..][1..] == cb.calls[i + 1..];
        i := i + 1;
      }
    }

    /** Pop until empty. */
    method SettleRefreshQueue(v: Verdict)
      modifies this`refreshQueue, this`refreshed
      ensures Refresh() == Drain(old(Refresh()), v)
    {
      while refreshQueue != []
        invariant refreshed + Backwards(refreshQueue, v) == old(refreshed) + Backwards(old(refreshQueue), v)
        decreases |refreshQueue|
      {
        var p := refreshQueue[|refreshQueue| - 1];
        refreshQueue := refreshQueue[..|refreshQueue| - 1];
        refreshed := refreshed + [(p, v)];
      }
    }

    /** The rest of updateToken when its request comes back: the try block, and the catch block it falls into. */
    method RefreshReturned(r: RefreshResponse)
      requires fetches > 0
      modifies this`refreshQueue, this`fetches, this`refreshed
      ensures Refresh() == Step(old(Refresh()), RefreshEvent(r))
      ensures Law(old(Refresh())) ==> RefreshSettles(old(Refresh()), Refresh(), r)
    {
      if Law(Refresh()) {
        RefreshEventSettles(Refresh(), r);
      }
      fetches := fetches - 1;
      ghost var c := Refresh();
      ghost var tried: seq<Waiter> := [];
      if r.ok {
        if !r.tokenUnreadable {
          RunCallback(r.onSuccess);
          if !r.onSuccess.throws {
            SettleRefreshQueue(Resolved(true));
            return;
          }
          tried := r.onSuccess.calls;
        }
      }
      if !r.ok && r.badRequest {
        RunCallback(r.onLogout);
        JoinAllTwice(c, tried, r.onLogout.calls);
        if r.onLogout.throws {
          return;
        }
        tried := tried + r.onLogout.calls;
      }
      RunCallback(r.onError);
      JoinAllTwice(c, tried, r.onError.calls);
      assert [] + r.onError.calls == r.onError.calls;
      if r.onError.throws {
        return;
      }
      SettleRefreshQueue(Rejected("refresh failed"));
    }

    /** #checkLoginIframe once the iframe is there. */
    method CheckLoginIframe(w: Waiter)
      modifies this`callbackList, this`posts
      ensures Iframe() == Join(old(Iframe()), w)
      ensures callbackList == old(callbackList) + [w]
      ensures posts == old(posts) + if old(callbackList) == [] then 1 else 0
    {
      callbackList := callbackList + [w];
      if |callbackList| == 1 {
        posts := posts + 1;
      }
    }

    /** onAuthLogout via clearToken: it may check the login again before it returns or throws. */
    method RunLogoutCallback(cb: Callback)
      modifies this`callbackList, this`posts
      ensures Iframe() == JoinAll(old(Iframe()), cb.calls)
    {
      var i := 0;
      while i < |cb.calls|
        invariant 0 <= i <= |cb.calls|
        invariant checked == old(checked)
        invariant JoinAll(Iframe(), cb.calls[i..]) == JoinAll(old(Iframe()), cb.calls)
      {
        CheckLoginIframe(cb.calls[i]);
        assert cb.calls[i..][1..] == cb.calls[i + 1..];
        i := i + 1;
      }
    }

    /** The list is emptied first, then `callbacks.reverse()` is gone through. */
    method SettleCallbackList(v: Verdict)
      modifies this`callbackList, this`checked
      ensures Iframe() == Drain(old(Iframe()), v)
    {
      var callbacks := callbackList;
      callbackList := [];
      var k := |callbacks|;
      assert callbacks[..k] == callbacks;
      while k > 0
        invariant 0 <= k <= |callbacks| && callbackList == []
        invariant checked + Backwards(callbacks[..k], v) == old(checked) + Backwards(callbacks, v)
      {
        k := k - 1;
        BackwardsStep(checked, callbacks, k, v);
        checked := checked + [(callbacks[k], v)];
      }
    }

    /**
     The message listener, for the one reply the iframe sends to each posted message; any other
     message is passed over, and the reply may still come.
     */
    method MessageCallback(m: IframeMessage, onLogout: Callback)
      requires m.OtherData? || posts > 0
      modifies this`callbackList, this`posts, this`checked
      ensures Iframe() == if m.OtherData? then old(Iframe()) else Step(old(Iframe()), IframeEvent(m, onLogout))
      ensures Law(old(Iframe())) && !m.OtherData? ==> ReplySettles(old(Iframe()), Iframe(), m, onLogout)
    {
      if m == OtherData {
        return;
      }
      if Law(Iframe()) {
        IframeEventSettles(Iframe(), m, onLogout);
      }
      posts := posts - 1;
      match m {
        case Unchanged =>
          SettleCallbackList(Resolved(true));
        case Changed =>
          RunLogoutCallback(onLogout);
          if onLogout.throws {
            return;
          }
          SettleCallbackList(Resolved(false));
        case ErrorMessage =>
          RunLogoutCallback(onLogout);
          if onLogout.throws {
            return;
          }
          SettleCallbackList(Rejected("Error while checking login iframe"));
      }
    }
  }

  lemma BackwardsStep(log: seq<(Waiter, Verdict)>, ws: seq<Waiter>, k: nat, v: Verdict)
    requires k < |ws|
    ensures log + Backwards(ws[..k + 1], v) == (log + [(ws[k], v)]) + Backwards(ws[..k], v)
  {
    assert ws[..k + 1][..k] == ws[..k];
  }

  lemma {:induction false} JoinAllTwice(c: Coalescer, a: seq<Waiter>, b: seq<Waiter>)
    ensures JoinAll(JoinAll(c, a), b) == JoinAll(c, a + b)
    decreases |a|
  {
    if a == [] {
      assert a + b == b;
    } else {
      assert (a + b)[1..] == a[1..] + b;
      JoinAllTwice(Join(c, a[0]), a[1..], b);
    }
  }

  /** The list of login checks is wedged by a reply iff it logs out and the logout callback throws. */
  lemma IframeWedgesIff(c: Coalescer, m: IframeMessage, onLogout: Callback)
    requires Law(c) && c.out > 0 && !m.OtherData?
    ensures Wedged(Step(c, IframeEvent(m, onLogout))) <==> (m.Changed? || m.ErrorMessage?) && onLogout.throws
  {
    LawKeptIff(c, IframeEvent(m, onLogout));
  }

  /** The refresh queue is wedged by a response iff a callback of the error path throws. */
  lemma RefreshWedgesIff(c: Coalescer, r: RefreshResponse)
    requires Law(c) && c.out > 0
    ensures Wedged(Step(c, RefreshEvent(r))) <==>
      && (!r.ok || r.tokenUnreadable || r.onSuccess.throws)
      && ((!r.ok && r.badRequest && r.onLogout.throws) || r.onError.throws)
  {
    LawKeptIff(c, RefreshEvent(r));
  }
}
