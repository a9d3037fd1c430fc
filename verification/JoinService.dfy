/**
 The JOIN handlers as the code they are: methods over two locked files. A method without an
 HTTP call runs as one turn of the loop, so its contract is one atomic operation of JoinHistory;
 approve takes what other tasks do during its HTTP calls as a parameter.
 */
module JoinService {
  import opened Common
  import opened JoinModel
  import opened JoinHistory
  import opened JoinLoop

  /** A whole turn of another task that writes the request store. */
  datatype Visit =
    | SubmitVisit(tenant: string, payload: Payload, at: Time, otherScript: bool)
    | RejectVisit(tenant: string, reason: string, at: Time)
    | CommitVisit(tenant: string, bundle: Bundle, at: Time)   // the end of another approve

  /** One stage of the pipeline: how its calls end and which turns others take before they do. */
  datatype StageCalls = StageCalls(answer: Outcome, meanwhile: seq<Visit>)

  function Visited(reqs: JoinDict, v: Visit): JoinDict {
    match v
    case SubmitVisit(tenant, payload, at, otherScript) =>
      if TenantIdAccepted(tenant, otherScript) && !AlreadyApproved(reqs, tenant) then
        reqs[tenant := PendingEntry(tenant, payload, at)]
      else reqs
    case RejectVisit(tenant, reason, at) =>
      if tenant in reqs && reqs[tenant].status != Approved then reqs[tenant := RejectEntry(reqs[tenant], reason, at)]
      else reqs
    case CommitVisit(tenant, bundle, at) =>
      if tenant in reqs then reqs[tenant := ApproveEntry(reqs[tenant], bundle, at)] else reqs
  }

  function VisitedAll(reqs: JoinDict, vs: seq<Visit>): JoinDict {
    if vs == [] then reqs else Visited(VisitedAll(reqs, vs[..|vs| - 1]), vs[|vs| - 1])
  }

  lemma {:induction false} VisitsKeepTenants(reqs: JoinDict, vs: seq<Visit>)
    ensures ReqsEvolve(reqs, VisitedAll(reqs, vs))
  {
    if vs != [] {
      VisitsKeepTenants(reqs, vs[..|vs| - 1]);
    }
  }

  lemma {:induction false} VisitedAppend(reqs: JoinDict, a: seq<Visit>, b: seq<Visit>)
    ensures VisitedAll(reqs, a + b) == VisitedAll(VisitedAll(reqs, a), b)
    decreases |b|
  {
    if b == [] {
      assert a + b == a;
    } else {
      assert (a + b)[..|a + b| - 1] == a + b[..|b| - 1];
      VisitedAppend(reqs, a, b[..|b| - 1]);
    }
  }

  /** The draft after the stages that ran, or None where an exception escaped. */
  function PipelineDraft(tenant: string, csr: string, s: StageCalls, r: StageCalls, b: StageCalls, f: StageCalls)
    : Option<Draft>
  {
    match RunStage(EMPTY_DRAFT, SignCsr, tenant, s.answer)
    case None => None
    case Some(d1) =>
      match RunStage(d1, Rabbit, tenant, r.answer)
      case None => None
      case Some(d2) =>
        match if csr != "" then RunStage(d2, BridgeCert, tenant, b.answer) else Some(SkipBridgeCert(d2))
        case None => None
        case Some(d3) => RunStage(d3, Federation, tenant, f.answer)
  }

  /** The turns other tasks took up to the commit, or up to the exception. */
  function PipelineGap(csr: string, s: StageCalls, r: StageCalls, b: StageCalls, f: StageCalls): seq<Visit> {
    if s.answer.Crashed? then s.meanwhile
    else if csr != "" && b.answer.Crashed? then s.meanwhile + r.meanwhile + b.meanwhile
    else s.meanwhile + r.meanwhile + (if csr != "" then b.meanwhile else []) + f.meanwhile
  }

  /** What a stage whose call answered with a text leaves, and what one that did not. */
  function AnswerOr(o: Outcome, otherwise: string): string { if o.Replied? then o.first else otherwise }

  function Problem(o: Outcome): Option<string> {
    match o
    case Replied(_, _, _) => None
    case Refused(msg) => Some(msg)
    case Crashed(msg) => Some(msg)
  }

  /** A name is a key of the map iff there is a text for it, and the map holds that text. */
  predicate Holds(m: map<string, string>, name: string, text: Option<string>) {
    (name in m <==> text.Some?) && (text.Some? ==> m[name] == text.value)
  }

  /** The root certificate of stage 1 comes with the signature or, where that has none, from a fetch. */
  function RootOf(sign: Outcome): string {
    if !sign.Replied? then "" else if sign.second != "" then sign.second else sign.third
  }

  /** The nine values of a bundle, each read off the answer of its own stage, the settings or the tenant. */
  predicate Brings(
      b: Bundle, tenant: string, csr: string, cfg: Settings, sign: Outcome, bridge: Outcome, federation: Outcome)
  {
    && b.signedCert == AnswerOr(sign, "")
    && b.rootCaCert == RootOf(sign)
    && b.rabbitmqUrl == cfg.rabbitmqUrl
    && b.rabbitmqVhost == tenant
    && b.rabbitmqUser == tenant + "-mqtt-bridge"
    && b.mqttBridgeCert == (if csr != "" then AnswerOr(bridge, "") else "")
    && b.cdmIdpClientId == (if federation.Replied? then "cdm-federation-" + tenant else "")
    && b.cdmIdpClientSecret == AnswerOr(federation, "")
    && b.cdmDiscoveryUrl == cfg.discoveryUrl
  }

  /** The answer of a handshake, field by field; the last four a stage can leave out, and three are null then. */
  predicate Hands(
      h: Handed, tenant: string, csr: string, cfg: Settings, sign: Outcome, bridge: Outcome, federation: Outcome)
  {
    && h.tenantId == tenant
    && h.signedCert == AnswerOr(sign, "")
    && h.rootCaCert == RootOf(sign)
    && h.rabbitmqUrl == cfg.rabbitmqUrl
    && h.rabbitmqVhost == tenant
    && h.rabbitmqUser == tenant + "-mqtt-bridge"
    && h.mqttBridgeCert == (if csr != "" && AnswerOr(bridge, "") != "" then Some(bridge.first) else None)
    && h.cdmIdpClientId == (if federation.Replied? then Some("cdm-federation-" + tenant) else None)
    && h.cdmIdpClientSecret == (if AnswerOr(federation, "") != "" then Some(federation.first) else None)
    && h.cdmDiscoveryUrl == cfg.discoveryUrl
  }

  /** The `errors` of an approve: each failed stage under its own name, with its own message. */
  predicate ReportsErrors(
      errors: map<string, string>, csr: string, sign: Outcome, rabbit: Outcome, bridge: Outcome, federation: Outcome)
  {
    && Holds(errors, "step_ca", Problem(sign)) && Holds(errors, "rabbitmq", Problem(rabbit))
    && Holds(errors, "mqtt_bridge_cert", if csr != "" then Problem(bridge) else None)
    && Holds(errors, "keycloak_federation", Problem(federation))
    && errors.Keys <= {"step_ca", "rabbitmq", "mqtt_bridge_cert", "keycloak_federation"}
  }

  /** The `results` of an approve: each stage that did its work, or was skipped, in its own words. */
  predicate ReportsResults(
      results: map<string, string>, csr: string, sign: Outcome, rabbit: Outcome, bridge: Outcome, federation: Outcome)
  {
    && Holds(results, "step_ca", if sign.Replied? then Some("signed") else None)
    && Holds(results, "rabbitmq", if rabbit.Replied? then Some("provisioned") else None)
    && Holds(results, "mqtt_bridge_cert",
             if csr == "" then Some("skipped (no mqtt_bridge_csr provided)")
             else if bridge.Replied? then Some("signed") else None)
    && Holds(results, "keycloak_federation", if federation.Replied? then Some("client_created") else None)
    && results.Keys <= {"step_ca", "rabbitmq", "mqtt_bridge_cert", "keycloak_federation"}
  }

  /** What an approve leaves in a tenant's entry: the nine values, the time, and all else as it found it. */
  predicate Recorded(e: JoinEntry, found: JoinEntry, b: Bundle, now: Time) {
    && e.status == Approved && e.approvedAt == Some(now)
    && e.signedCert == Some(b.signedCert) && e.rootCaCert == Some(b.rootCaCert)
    && e.rabbitmqUrl == Some(b.rabbitmqUrl) && e.rabbitmqVhost == Some(b.rabbitmqVhost)
    && e.rabbitmqUser == Some(b.rabbitmqUser) && e.mqttBridgeCert == Some(b.mqttBridgeCert)
    && e.cdmIdpClientId == Some(b.cdmIdpClientId) && e.cdmIdpClientSecret == Some(b.cdmIdpClientSecret)
    && e.cdmDiscoveryUrl == Some(b.cdmDiscoveryUrl)
    && e.tenantId == found.tenantId && e.payload == found.payload && e.requestedAt == found.requestedAt
    && e.rejectedAt == found.rejectedAt && e.rejectedReason == found.rejectedReason
    && e.wgServerPubkey == found.wgServerPubkey && e.wgServerEndpoint == found.wgServerEndpoint
    && e.wgClientIp == found.wgClientIp
  }

  /** A poll shows each of these fields of the entry under its own name. */
  predicate Shows(s: JoinStatus, tenant: string, e: JoinEntry) {
    && s.tenantId == tenant && s.status == e.status && s.rejectedReason == e.rejectedReason
    && s.signedCert == e.signedCert && s.rootCaCert == e.rootCaCert && s.mqttBridgeCert == e.mqttBridgeCert
    && s.rabbitmqUrl == e.rabbitmqUrl && s.rabbitmqVhost == e.rabbitmqVhost && s.rabbitmqUser == e.rabbitmqUser
    && s.cdmIdpClientId == e.cdmIdpClientId && s.cdmIdpClientSecret == e.cdmIdpClientSecret
    && s.cdmDiscoveryUrl == e.cdmDiscoveryUrl && s.wgServerPubkey == e.wgServerPubkey
    && s.wgServerEndpoint == e.wgServerEndpoint && s.wgClientIp == e.wgClientIp
  }

  /** Of a file's entries only this one is new or differs. */
  predicate OnlyEntry<V(==)>(before: map<string, V>, after: map<string, V>, k: string) {
    k in after && after.Keys == before.Keys + {k} && forall x :: x in before && x != k ==> after[x] == before[x]
  }

  /** An exception ends the pipeline iff a signing call ends with one that is not the client's own. */
  predicate Abandoned(csr: string, sign: Outcome, bridge: Outcome) {
    sign.Crashed? || (csr != "" && bridge.Crashed?)
  }

  /** The four stages one after the other, each on the draft the one before left. */
  lemma PipelineSteps(
      tenant: string, csr: string, s: StageCalls, r: StageCalls, b: StageCalls, f: StageCalls)
    returns (d1: Draft, d2: Draft, d3: Draft)
    requires !Abandoned(csr, s.answer, b.answer)
    ensures RunStage(EMPTY_DRAFT, SignCsr, tenant, s.answer) == Some(d1)
    ensures RunStage(d1, Rabbit, tenant, r.answer) == Some(d2)
    ensures (if csr != "" then RunStage(d2, BridgeCert, tenant, b.answer) else Some(SkipBridgeCert(d2))) == Some(d3)
    ensures PipelineDraft(tenant, csr, s, r, b, f) == RunStage(d3, Federation, tenant, f.answer)
    ensures PipelineDraft(tenant, csr, s, r, b, f).Some?
  {
    d1 := RunStage(EMPTY_DRAFT, SignCsr, tenant, s.answer).value;
    d2 := RunStage(d1, Rabbit, tenant, r.answer).value;
    d3 := (if csr != "" then RunStage(d2, BridgeCert, tenant, b.answer) else Some(SkipBridgeCert(d2))).value;
  }

  lemma PipelineBrings(
      tenant: string, csr: string, cfg: Settings, s: StageCalls, r: StageCalls, b: StageCalls, f: StageCalls)
    requires !Abandoned(csr, s.answer, b.answer)
    ensures PipelineDraft(tenant, csr, s, r, b, f).Some?
    ensures Brings(FinishBundle(tenant, cfg, PipelineDraft(tenant, csr, s, r, b, f).value),
                   tenant, csr, cfg, s.answer, b.answer, f.answer)
  {
    var d1, d2, d3 := PipelineSteps(tenant, csr, s, r, b, f);
    hide PipelineDraft;
  }

  lemma PipelineResults(tenant: string, csr: string, s: StageCalls, r: StageCalls, b: StageCalls, f: StageCalls)
    requires !Abandoned(csr, s.answer, b.answer)
    ensures PipelineDraft(tenant, csr, s, r, b, f).Some?
    ensures ReportsResults(PipelineDraft(tenant, csr, s, r, b, f).value.results, csr,
                           s.answer, r.answer, b.answer, f.answer)
  {
    var d1, d2, d3 := PipelineSteps(tenant, csr, s, r, b, f);
    hide PipelineDraft;
  }

  lemma PipelineErrors(tenant: string, csr: string, s: StageCalls, r: StageCalls, b: StageCalls, f: StageCalls)
    requires !Abandoned(csr, s.answer, b.answer)
    ensures PipelineDraft(tenant, csr, s, r, b, f).Some?
    ensures ReportsErrors(PipelineDraft(tenant, csr, s, r, b, f).value.errors, csr,
                          s.answer, r.answer, b.answer, f.answer)
  {
    var d1, d2, d3 := PipelineSteps(tenant, csr, s, r, b, f);
    hide PipelineDraft;
  }

  /**
   What the pipeline hands over, stage by stage: each field is its own stage's answer, and each
   stage is reported in its own words, whatever the other stages did.
   */
  lemma PipelineMeans(
      tenant: string, csr: string, cfg: Settings, s: StageCalls, r: StageCalls, b: StageCalls, f: StageCalls)
    ensures var draft := PipelineDraft(tenant, csr, s, r, b, f);
            draft.None? <==> Abandoned(csr, s.answer, b.answer)
    ensures var draft := PipelineDraft(tenant, csr, s, r, b, f);
            draft.Some? ==>
              var bundle := FinishBundle(tenant, cfg, draft.value);
              && Brings(bundle, tenant, csr, cfg, s.answer, b.answer, f.answer)
              && Hands(HandOver(tenant, bundle), tenant, csr, cfg, s.answer, b.answer, f.answer)
              && ReportsResults(draft.value.results, csr, s.answer, r.answer, b.answer, f.answer)
              && ReportsErrors(draft.value.errors, csr, s.answer, r.answer, b.answer, f.answer)
  {
    if !Abandoned(csr, s.answer, b.answer) {
      PipelineBrings(tenant, csr, cfg, s, r, b, f);
      PipelineResults(tenant, csr, s, r, b, f);
      PipelineErrors(tenant, csr, s, r, b, f);
      hide PipelineDraft, FinishBundle, ReportsResults, ReportsErrors;
    }
  }

  class Service {
    const cfg: Settings
    var keysFile: Option<KeyDict>
    var keysTmp: Option<KeyDict>
    var keyLock: bool
    var reqsFile: Option<JoinDict>
    var reqsTmp: Option<JoinDict>
    var storeLock: bool

    constructor (cfg: Settings, keysOnDisk: Option<KeyDict>, reqsOnDisk: Option<JoinDict>)
      ensures Idle() && this.cfg == cfg
      ensures keysFile == keysOnDisk && reqsFile == reqsOnDisk
    {
      this.cfg := cfg;
      keysFile, keysTmp, keyLock := keysOnDisk, None, false;
      reqsFile, reqsTmp, storeLock := reqsOnDisk, None, false;
    }

    /** Proved of every scheduling point in JoinTheorems.LocksFreeWhenIdle. */
    predicate Idle()
      reads this
    {
      !keyLock && !storeLock
    }

    function Keys(): KeyDict
      reads this
    {
      if keysFile.Some? then keysFile.value else map[]
    }

    function Reqs(): JoinDict
      reads this
    {
      if reqsFile.Some? then reqsFile.value else map[]
    }

    ghost function Stores(): Db
      reads this
    {
      Db(Keys(), Reqs())
    }

    // -------------------------------------------------------------- the two files

    method LoadKeys() returns (data: KeyDict)
      requires Idle()
      modifies this`keyLock
      ensures Idle() && data == Keys()
    {
      if keysFile.None? {
        return map[];
      }
      keyLock := true;
      data := keysFile.value;
      keyLock := false;
    }

    method SaveKeys(data: KeyDict)
      requires Idle()
      modifies this`keyLock, this`keysFile, this`keysTmp
      ensures Idle() && keysFile == Some(data) && keysTmp == None
    {
      keyLock := true;
      keysTmp := Some(data);
      keysFile, keysTmp := keysTmp, None;
      keyLock := false;
    }

    method LoadStore() returns (data: JoinDict)
      requires Idle()
      modifies this`storeLock
      ensures Idle() && data == Reqs()
    {
      if reqsFile.None? {
        return map[];
      }
      storeLock := true;
      data := reqsFile.value;
      storeLock := false;
    }

    method SaveStore(data: JoinDict)
      requires Idle()
      modifies this`storeLock, this`reqsFile, this`reqsTmp
      ensures Idle() && reqsFile == Some(data) && reqsTmp == None
    {
      storeLock := true;
      reqsTmp := Some(data);
      reqsFile, reqsTmp := reqsTmp, None;
      storeLock := false;
    }

    // -------------------------------------------------------------- keys

    method CreateKey(id: TaskId, key: string, tenant: string, name: string, now: Time) returns (r: string)
      requires Idle()
      modifies this`keyLock, this`keysFile, this`keysTmp
      ensures Idle() && r == key && OnlyEntry(old(Keys()), Keys(), key)
      // The key is open for seven days, in microseconds.
      ensures Keys()[key] == KeyEntry(key, tenant, name, Open, now, now + 604_800_000_000, None)
      ensures Stores() == Apply(old(Stores()), KeyCreated(id, key, tenant, name, now))
    {
      var keys := LoadKeys();
      keys := keys[key := KeyEntry(key, tenant, name, Open, now, now + JOIN_KEY_TTL_HOURS * HOUR, None)];
      SaveKeys(keys);
      r := key;
    }

    /** At most one of the three error cases or success; each is reported exactly when its event is legal. */
    method ValidateAndConsume(id: TaskId, key: string, checkedAt: Time, usedAt: Time)
      returns (r: Result<KeyEntry, Consumption>)
      requires Idle()
      modifies this`keyLock, this`keysFile, this`keysTmp
      ensures Idle()
      ensures r.Ok? <==>
        key in old(Keys()) && old(Keys())[key].status == Open && checkedAt <= old(Keys())[key].expiresAt
      ensures r.Ok? ==>
        && Stores() == Apply(old(Stores()), KeyConsumed(id, key, r.value.tenantId, checkedAt, usedAt))
        && OnlyEntry(old(Keys()), Keys(), key) && r.value == Keys()[key]
        && r.value == old(Keys())[key].(status := Used, usedAt := Some(usedAt))
      ensures r.Err? && key in old(Keys()) && old(Keys())[key].status == Open ==>
        && Stores() == Apply(old(Stores()), KeyLapsed(id, key, old(Keys())[key].tenantId, checkedAt))
        && OnlyEntry(old(Keys()), Keys(), key) && Keys()[key] == old(Keys())[key].(status := Expired)
        && r.error == LapsedKey(Keys()[key])
      ensures r.Err? && key !in old(Keys()) ==> Stores() == old(Stores()) && r.error == UnknownKey
      ensures r.Err? && key in old(Keys()) && old(Keys())[key].status != Open ==>
        Stores() == old(Stores()) && r.error == SpentKey(old(Keys())[key].status)
    {
      var keys := LoadKeys();
      if key !in keys {
        return Err(UnknownKey);
      }
      var entry := keys[key];
      if entry.status != Open {
        return Err(SpentKey(entry.status));
      }
      if checkedAt > entry.expiresAt {
        entry := entry.(status := Expired);
        keys := keys[key := entry];
        SaveKeys(keys);
        return Err(LapsedKey(entry));
      }
      entry := entry.(status := Used);
      entry := entry.(usedAt := Some(usedAt));
      keys := keys[key := entry];
      SaveKeys(keys);
      r := Ok(entry);
    }

    // -------------------------------------------------------------- requests

    method SubmitJoinRequest(id: TaskId, tenant: string, payload: Payload, now: Time, otherScript: bool)
      returns (r: Reply)
      requires Idle()
      modifies this`storeLock, this`reqsFile, this`reqsTmp
      ensures Idle()
      ensures r == if !TenantIdAccepted(tenant, otherScript) then Http422
                   else if AlreadyApproved(old(Reqs()), tenant) then Http409 else Accepted202
      ensures Reqs() == Visited(old(Reqs()), SubmitVisit(tenant, payload, now, otherScript))
      ensures r == Accepted202 ==>
        && Stores() == Apply(old(Stores()), Submitted(id, tenant, payload, now))
        && OnlyEntry(old(Reqs()), Reqs(), tenant)
        && Reqs()[tenant] == JoinEntry(tenant, payload, Pending, now, None, None, None, None, None, None, None,
                                       None, None, None, None, None, None, None, None)
      ensures r != Accepted202 ==> Reqs() == old(Reqs())
    {
      if !TenantIdAccepted(tenant, otherScript) {
        return Http422;
      }
      var store := LoadStore();
      if tenant in store && store[tenant].status == Approved {
        return Http409;
      }
      store := store[tenant := PendingEntry(tenant, payload, now)];
      SaveStore(store);
      r := Accepted202;
    }

    method GetRequest(tenant: string) returns (r: Option<JoinEntry>)
      requires Idle()
      modifies this`storeLock
      ensures Idle()
      ensures r == if tenant in Reqs() then Some(Reqs()[tenant]) else None
    {
      var store := LoadStore();
      if tenant in store {
        r := Some(store[tenant]);
      } else {
        r := None;
      }
    }

    /** None is the 404 of an unknown tenant. */
    method GetJoinStatus(tenant: string) returns (r: Option<JoinStatus>)
      requires Idle()
      modifies this`storeLock
      ensures Idle()
      ensures r.Some? <==> tenant in Reqs()
      ensures r.Some? ==> r.value == StatusOf(tenant, Reqs()[tenant]) && Shows(r.value, tenant, Reqs()[tenant])
    {
      var entry := GetRequest(tenant);
      if entry.None? {
        return None;
      }
      var e := entry.value;
      r := Some(JoinStatus(tenant, e.status, e.signedCert, e.rootCaCert, e.rabbitmqUrl, e.rabbitmqVhost, e.rabbitmqUser,
                           e.mqttBridgeCert, e.cdmIdpClientId, e.cdmIdpClientSecret, e.cdmDiscoveryUrl,
                           e.wgServerPubkey, e.wgServerEndpoint, e.wgClientIp, e.rejectedReason));
    }

    method RejectJoinRequest(id: TaskId, tenant: string, reason: string, now: Time) returns (r: Reply)
      requires Idle()
      modifies this`storeLock, this`reqsFile, this`reqsTmp
      ensures Idle()
      ensures r == if tenant !in old(Reqs()) then Http404
                   else if old(Reqs())[tenant].status == Approved then Http409 else RejectedOk
      ensures Reqs() == Visited(old(Reqs()), RejectVisit(tenant, reason, now))
      ensures r == RejectedOk ==>
        && Stores() == Apply(old(Stores()), RejectedBy(id, tenant, reason, now))
        && OnlyEntry(old(Reqs()), Reqs(), tenant)
        && Reqs()[tenant] == old(Reqs())[tenant].(
                               status := Rejected, rejectedAt := Some(now),
                               rejectedReason := Some(if reason != "" then reason else "Rejected by provider admin."))
      ensures r != RejectedOk ==> Reqs() == old(Reqs())
    {
      var entry := GetRequest(tenant);
      if entry.None? {
        return Http404;
      }
      if entry.value.status == Approved {
        return Http409;
      }
      var store := LoadStore();
      store := store[tenant := RejectEntry(store[tenant], reason, now)];
      SaveStore(store);
      r := RejectedOk;
    }

    /** The reload and save at the end of approve; the only use of `store[tenant_id]` after a suspension. */
    method CommitApproval(id: TaskId, tenant: string, bundle: Bundle, now: Time)
      requires Idle() && tenant in Reqs()
      modifies this`storeLock, this`reqsFile, this`reqsTmp
      ensures Idle()
      ensures Reqs() == old(Reqs())[tenant := ApproveEntry(old(Reqs())[tenant], bundle, now)]
      ensures OnlyEntry(old(Reqs()), Reqs(), tenant) && Recorded(Reqs()[tenant], old(Reqs())[tenant], bundle, now)
      ensures Stores() == Apply(old(Stores()), ApproveCommitted(id, tenant, bundle, now))
    {
      var store := LoadStore();
      store := store[tenant := ApproveEntry(store[tenant], bundle, now)];
      SaveStore(store);
    }

    /** What the loop runs while this task waits for an HTTP answer: any turns of any other tasks. */
    method Suspend(visits: seq<Visit>)
      requires Idle()
      modifies this`storeLock, this`reqsFile, this`reqsTmp
      ensures Idle() && Reqs() == VisitedAll(old(Reqs()), visits)
    {
      var i := 0;
      while i < |visits|
        invariant 0 <= i <= |visits| && Idle()
        invariant Reqs() == VisitedAll(old(Reqs()), visits[..i])
      {
        match visits[i] {
          case SubmitVisit(tenant, payload, at, otherScript) =>
            var _ := SubmitJoinRequest(0, tenant, payload, at, otherScript);
          case RejectVisit(tenant, reason, at) =>
            var _ := RejectJoinRequest(0, tenant, reason, at);
          case CommitVisit(tenant, bundle, at) =>
            if tenant in Reqs() {
              CommitApproval(0, tenant, bundle, at);
            }
        }
        assert visits[..i + 1][..i] == visits[..i];
        i := i + 1;
      }
      assert visits[..i] == visits;
    }

    /**
     Approve, for every way its calls can end and every schedule of other tasks. Its commit is
     applied to what those tasks left behind, so none of their writes is lost; an exception leaves
     the store exactly as they left it.
     */
    method ApproveJoinRequest(
        id: TaskId, tenant: string, sign: StageCalls, rabbit: StageCalls, bridge: StageCalls, federation: StageCalls,
        now: Time)
      returns (r: Reply)
      requires Idle()
      modifies this`storeLock, this`reqsFile, this`reqsTmp
      ensures Idle()
      ensures tenant !in old(Reqs()) ==> r == Http404 && Reqs() == old(Reqs())
      ensures tenant in old(Reqs()) && old(Reqs())[tenant].status != Pending ==> r == Http409 && Reqs() == old(Reqs())
      ensures tenant in old(Reqs()) && old(Reqs())[tenant].status == Pending ==>
        var csr := old(Reqs())[tenant].payload.mqttBridgeCsr;
        var left := VisitedAll(old(Reqs()), PipelineGap(csr, sign, rabbit, bridge, federation));
        if Abandoned(csr, sign.answer, bridge.answer) then r == Http500 && Reqs() == left
        else
          && r.ApprovedOk?
          && Brings(r.bundle, tenant, csr, cfg, sign.answer, bridge.answer, federation.answer)
          && ReportsResults(r.results, csr, sign.answer, rabbit.answer, bridge.answer, federation.answer)
          && ReportsErrors(r.errors, csr, sign.answer, rabbit.answer, bridge.answer, federation.answer)
          && tenant in left && OnlyEntry(left, Reqs(), tenant) && Recorded(Reqs()[tenant], left[tenant], r.bundle, now)
    {
      var entry := GetRequest(tenant);
      if entry.None? {
        return Http404;
      }
      if entry.value.status == Approved {
        return Http409;
      }
      if entry.value.status == Rejected {
        return Http409;
      }
      var csr := entry.value.payload.mqttBridgeCsr;
      ghost var gap := PipelineGap(csr, sign, rabbit, bridge, federation);
      VisitsKeepTenants(Reqs(), gap);
      PipelineMeans(tenant, csr, cfg, sign, rabbit, bridge, federation);
      var draft := CallStages(tenant, csr, sign, rabbit, bridge, federation);
      if draft.None? {
        return Http500;
      }
      var bundle := FinishBundle(tenant, cfg, draft.value);
      CommitApproval(id, tenant, bundle, now);
      r := ApprovedOk(bundle, draft.value.results, draft.value.errors);
    }

    /** Stage 1, the Sub-CA certificate; only the client's own error class is caught. */
    method SignSubCa(d: Draft, tenant: string, calls: StageCalls) returns (r: Option<Draft>)
      requires Idle()
      modifies this`storeLock, this`reqsFile, this`reqsTmp
      ensures Idle() && Reqs() == VisitedAll(old(Reqs()), calls.meanwhile)
      ensures r == RunStage(d, SignCsr, tenant, calls.answer)
    {
      var draft := d;
      Suspend(calls.meanwhile);
      match calls.answer {
        case Replied(cert, root, fetched) =>
          var rootCaCert := root;
          if rootCaCert == "" {
            rootCaCert := fetched;
          }
          draft := draft.(signedCert := cert, rootCaCert := rootCaCert,
                          results := draft.results["step_ca" := "signed"]);
        case Refused(msg) => draft := draft.(errors := draft.errors["step_ca" := msg]);
        case Crashed(_) => return None;
      }
      r := Some(draft);
    }

    /** Stage 2, the RabbitMQ vhost and user; every exception is caught. */
    method ProvisionRabbit(d: Draft, tenant: string, calls: StageCalls) returns (r: Option<Draft>)
      requires Idle()
      modifies this`storeLock, this`reqsFile, this`reqsTmp
      ensures Idle() && Reqs() == VisitedAll(old(Reqs()), calls.meanwhile)
      ensures r == RunStage(d, Rabbit, tenant, calls.answer)
    {
      var draft := d;
      Suspend(calls.meanwhile);
      match calls.answer {
        case Replied(_, _, _) => draft := draft.(results := draft.results["rabbitmq" := "provisioned"]);
        case Refused(msg) => draft := draft.(errors := draft.errors["rabbitmq" := msg]);
        case Crashed(msg) => draft := draft.(errors := draft.errors["rabbitmq" := msg]);
      }
      r := Some(draft);
    }

    /** Stage 2b, the MQTT bridge certificate. */
    method SignBridgeCert(d: Draft, tenant: string, calls: StageCalls) returns (r: Option<Draft>)
      requires Idle()
      modifies this`storeLock, this`reqsFile, this`reqsTmp
      ensures Idle() && Reqs() == VisitedAll(old(Reqs()), calls.meanwhile)
      ensures r == RunStage(d, BridgeCert, tenant, calls.answer)
    {
      var draft := d;
      Suspend(calls.meanwhile);
      match calls.answer {
        case Replied(cert, _, _) =>
          draft := draft.(mqttBridgeCert := cert, results := draft.results["mqtt_bridge_cert" := "signed"]);
        case Refused(msg) => draft := draft.(errors := draft.errors["mqtt_bridge_cert" := msg]);
        case Crashed(_) => return None;
      }
      r := Some(draft);
    }

    /** Stage 3, the Keycloak federation client; every exception is caught. */
    method CreateFederationClient(d: Draft, tenant: string, calls: StageCalls) returns (r: Option<Draft>)
      requires Idle()
      modifies this`storeLock, this`reqsFile, this`reqsTmp
      ensures Idle() && Reqs() == VisitedAll(old(Reqs()), calls.meanwhile)
      ensures r == RunStage(d, Federation, tenant, calls.answer)
    {
      var draft := d;
      Suspend(calls.meanwhile);
      match calls.answer {
        case Replied(secret, _, _) =>
          draft := draft.(clientId := "cdm-federation-" + tenant, clientSecret := secret,
                          results := draft.results["keycloak_federation" := "client_created"]);
        case Refused(msg) => draft := draft.(errors := draft.errors["keycloak_federation" := msg]);
        case Crashed(msg) => draft := draft.(errors := draft.errors["keycloak_federation" := msg]);
      }
      r := Some(draft);
    }

    /**
     The four stages in order. The source has this code twice, in approve and in
     _run_provisioning (which keeps no `results`).
     */
    method CallStages(
        tenant: string, csr: string, sign: StageCalls, rabbit: StageCalls, bridge: StageCalls, federation: StageCalls)
      returns (draft: Option<Draft>)
      requires Idle()
      modifies this`storeLock, this`reqsFile, this`reqsTmp
      ensures Idle()
      ensures draft == PipelineDraft(tenant, csr, sign, rabbit, bridge, federation)
      ensures Reqs() == VisitedAll(old(Reqs()), PipelineGap(csr, sign, rabbit, bridge, federation))
    {
      ghost var before := Reqs();
      draft := SignSubCa(EMPTY_DRAFT, tenant, sign);
      if draft.None? {
        return;
      }
      draft := ProvisionRabbit(draft.value, tenant, rabbit);
      VisitedAppend(before, sign.meanwhile, rabbit.meanwhile);
      ghost var early := sign.meanwhile + rabbit.meanwhile;
      if csr != "" {
        draft := SignBridgeCert(draft.value, tenant, bridge);
        VisitedAppend(before, early, bridge.meanwhile);
        if draft.None? {
          return;
        }
      } else {
        draft := Some(SkipBridgeCert(draft.value));
        assert early + [] == early;
      }
      draft := CreateFederationClient(draft.value, tenant, federation);
      VisitedAppend(before, early + (if csr != "" then bridge.meanwhile else []), federation.meanwhile);
    }

    /** The handshake: the key is consumed before, and however, provisioning ends. */
    method JoinHandshake(
        id: TaskId, key: string, csr: string, checkedAt: Time, usedAt: Time,
        sign: StageCalls, rabbit: StageCalls, bridge: StageCalls, federation: StageCalls)
      returns (r: Reply)
      requires Idle()
      modifies this
      ensures Idle()
      ensures var live := key != "" && key in old(Keys()) && old(Keys())[key].status == Open;
              if live && checkedAt <= old(Keys())[key].expiresAt then
                var tenant := old(Keys())[key].tenantId;
                && Keys() == Apply(old(Stores()), KeyConsumed(id, key, tenant, checkedAt, usedAt)).keys
                && Reqs() == VisitedAll(old(Reqs()), PipelineGap(csr, sign, rabbit, bridge, federation))
                && if Abandoned(csr, sign.answer, bridge.answer) then r == Http500
                   else r.Joined? && Hands(r.handed, tenant, csr, cfg, sign.answer, bridge.answer, federation.answer)
              else
                && r == Http401
                && Stores() == if live then
                                 Apply(old(Stores()), KeyLapsed(id, key, old(Keys())[key].tenantId, checkedAt))
                               else old(Stores())
    {
      if key == "" {
        return Http401;
      }
      var entry := ValidateAndConsume(id, key, checkedAt, usedAt);
      if entry.Err? {
        return Http401;
      }
      r := RunProvisioning(entry.value.tenantId, csr, sign, rabbit, bridge, federation);
    }

    method RunProvisioning(
        tenant: string, csr: string, sign: StageCalls, rabbit: StageCalls, bridge: StageCalls, federation: StageCalls)
      returns (r: Reply)
      requires Idle()
      modifies this`storeLock, this`reqsFile, this`reqsTmp
      ensures Idle()
      ensures if Abandoned(csr, sign.answer, bridge.answer) then r == Http500
              else r.Joined? && Hands(r.handed, tenant, csr, cfg, sign.answer, bridge.answer, federation.answer)
      ensures Reqs() == VisitedAll(old(Reqs()), PipelineGap(csr, sign, rabbit, bridge, federation))
    {
      PipelineMeans(tenant, csr, cfg, sign, rabbit, bridge, federation);
      var draft := CallStages(tenant, csr, sign, rabbit, bridge, federation);
      if draft.None? {
        return Http500;
      }
      r := Joined(HandOver(tenant, FinishBundle(tenant, cfg, draft.value)));
    }
  }
}
