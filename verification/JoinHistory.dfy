/**
 The sequential specification of the two JOIN stores: a history of atomic
 operations, when each operation may report the outcome it reports, and what the
 stores hold after a history. Every safety law below is about all such histories.
 */
module JoinHistory {
  import opened Common
  import opened JoinModel

  datatype Event =
    | KeyCreated(task: TaskId, key: string, tenant: string, name: string, at: Time)
    | KeyUnknown(task: TaskId, key: string)
    | KeySpent(task: TaskId, key: string, status: KeyStatus)
    | KeyLapsed(task: TaskId, key: string, tenant: string, at: Time)
    | KeyConsumed(task: TaskId, key: string, tenant: string, checkedAt: Time, usedAt: Time)
    | ProvisionStarted(task: TaskId, key: string, tenant: string)
    | Submitted(task: TaskId, tenant: string, payload: Payload, at: Time)
    | SubmitRefused(task: TaskId, tenant: string)
    | RejectUnknown(task: TaskId, tenant: string)
    | RejectRefused(task: TaskId, tenant: string)
    | RejectedBy(task: TaskId, tenant: string, reason: string, at: Time)
    | ApproveUnknown(task: TaskId, tenant: string)
    | ApproveRefused(task: TaskId, tenant: string, found: Status)
    | ApproveChecked(task: TaskId, tenant: string, seen: JoinEntry)
    | ApproveCommitted(task: TaskId, tenant: string, bundle: Bundle, at: Time)

  type History = seq<Event>

  datatype Db = Db(keys: KeyDict, reqs: JoinDict)

  const EMPTY_DB := Db(map[], map[])

  /** The effect of one event; events that only report leave the stores alone. */
  function Apply(db: Db, ev: Event): Db {
    match ev
    case KeyCreated(_, key, tenant, name, at) => db.(keys := db.keys[key := NewKey(key, tenant, name, at)])
    case KeyLapsed(_, key, _, _) =>
      if key in db.keys then db.(keys := db.keys[key := db.keys[key].(status := Expired)]) else db
    case KeyConsumed(_, key, _, _, usedAt) =>
      if key in db.keys then
        db.(keys := db.keys[key := db.keys[key].(status := Used, usedAt := Some(usedAt))])
      else db
    case Submitted(_, tenant, payload, at) => db.(reqs := db.reqs[tenant := PendingEntry(tenant, payload, at)])
    case RejectedBy(_, tenant, reason, at) =>
      if tenant in db.reqs then db.(reqs := db.reqs[tenant := RejectEntry(db.reqs[tenant], reason, at)]) else db
    case ApproveCommitted(_, tenant, bundle, at) =>
      if tenant in db.reqs then db.(reqs := db.reqs[tenant := ApproveEntry(db.reqs[tenant], bundle, at)]) else db
    case _ => db
  }

  function Front(h: History): History
    requires h != []
  {
    h[..|h| - 1]
  }

  function Last(h: History): Event
    requires h != []
  {
    h[|h| - 1]
  }

  /** The stores after a history that starts with both files absent. */
  function Replay(h: History): Db {
    if h == [] then EMPTY_DB else Apply(Replay(Front(h)), Last(h))
  }

  ghost predicate CheckedBefore(h: History, task: TaskId, tenant: string) {
    exists i :: 0 <= i < |h| && h[i].ApproveChecked? && h[i].task == task && h[i].tenant == tenant
  }

  ghost predicate ConsumedBefore(h: History, task: TaskId, key: string) {
    exists i :: 0 <= i < |h| && h[i].KeyConsumed? && h[i].task == task && h[i].key == key
  }

  ghost predicate ProvisionedBefore(h: History, key: string) {
    exists i :: 0 <= i < |h| && h[i].ProvisionStarted? && h[i].key == key
  }

  ghost predicate CommittedBefore(h: History, task: TaskId) {
    exists i :: 0 <= i < |h| && h[i].ApproveCommitted? && h[i].task == task
  }

  /** When an atomic operation may report the outcome `ev` after history `h`. */
  ghost predicate Legal(h: History, ev: Event) {
    var db := Replay(h);
    match ev
    case KeyCreated(_, key, _, _, _) => key !in db.keys
    case KeyUnknown(_, key) => key !in db.keys
    case KeySpent(_, key, status) => key in db.keys && db.keys[key].status == status != Open
    case KeyLapsed(_, key, tenant, at) =>
      key in db.keys && db.keys[key].status == Open && at > db.keys[key].expiresAt && db.keys[key].tenantId == tenant
    case KeyConsumed(_, key, tenant, checkedAt, _) =>
      key in db.keys && db.keys[key].status == Open && checkedAt <= db.keys[key].expiresAt
      && db.keys[key].tenantId == tenant
    case ProvisionStarted(task, key, tenant) =>
      ConsumedBefore(h, task, key) && !ProvisionedBefore(h, key) && key in db.keys && db.keys[key].tenantId == tenant
    case Submitted(_, tenant, _, _) => TenantIdPossible(tenant) && !AlreadyApproved(db.reqs, tenant)
    case SubmitRefused(_, tenant) => AlreadyApproved(db.reqs, tenant)
    case RejectUnknown(_, tenant) => tenant !in db.reqs
    case RejectRefused(_, tenant) => AlreadyApproved(db.reqs, tenant)
    case RejectedBy(_, tenant, _, _) => tenant in db.reqs && !AlreadyApproved(db.reqs, tenant)
    case ApproveUnknown(_, tenant) => tenant !in db.reqs
    case ApproveRefused(_, tenant, status) => tenant in db.reqs && db.reqs[tenant].status == status != Pending
    case ApproveChecked(_, tenant, seen) => tenant in db.reqs && db.reqs[tenant] == seen && seen.status == Pending
    case ApproveCommitted(task, tenant, bundle, _) =>
      // Nothing is said of the entry itself: it is whatever the gap left behind.
      && CheckedBefore(h, task, tenant)
      && !CommittedBefore(h, task)
      && bundle.rabbitmqVhost == tenant
      && bundle.rabbitmqUser == MqttUser(tenant)
  }

  ghost predicate LegalHistory(h: History) {
    h == [] || (LegalHistory(Front(h)) && Legal(Front(h), Last(h)))
  }

  lemma AppendLegal(h: History, ev: Event)
    requires LegalHistory(h) && Legal(h, ev)
    ensures LegalHistory(h + [ev]) && Replay(h + [ev]) == Apply(Replay(h), ev)
  {
    assert Front(h + [ev]) == h;
  }

  /** Each event of a legal history was legal when it happened. */
  lemma {:induction false} LegalAt(h: History, i: nat)
    requires LegalHistory(h) && i < |h|
    ensures LegalHistory(h[..i]) && Legal(h[..i], h[i])
    ensures Replay(h[..i + 1]) == Apply(Replay(h[..i]), h[i])
    decreases |h|
  {
    if i == |h| - 1 {
      assert h[..i] == Front(h) && h[..i + 1] == h;
    } else {
      var f := Front(h);
      LegalAt(f, i);
      assert f[..i] == h[..i] && f[..i + 1] == h[..i + 1] && f[i] == h[i];
    }
  }

  // ---------------------------------------------------------------- one event

  /** A key entry may only move open -> used or open -> expired; the rest of it is fixed. */
  predicate KeyMayBecome(a: KeyEntry, b: KeyEntry) {
    && a.key == b.key
    && a.tenantId == b.tenantId
    && a.displayName == b.displayName
    && a.createdAt == b.createdAt
    && a.expiresAt == b.expiresAt
    && (a.status != Open ==> a == b)
  }

  ghost predicate KeysEvolve(a: KeyDict, b: KeyDict) {
    forall k :: k in a ==> k in b && KeyMayBecome(a[k], b[k])
  }

  /** Tenants stay, and an approved entry keeps its status and its tenant. */
  ghost predicate ReqsEvolve(a: JoinDict, b: JoinDict) {
    forall t :: t in a ==> t in b && (a[t].status == Approved ==> b[t].status == Approved)
  }

  /** The tenant whose entry an event writes, if any. */
  function WrittenTenant(ev: Event): Option<string> {
    match ev
    case Submitted(_, tenant, _, _) => Some(tenant)
    case RejectedBy(_, tenant, _, _) => Some(tenant)
    case ApproveCommitted(_, tenant, _, _) => Some(tenant)
    case _ => None
  }

  lemma EventEvolves(h: History, ev: Event)
    requires Legal(h, ev)
    ensures KeysEvolve(Replay(h).keys, Apply(Replay(h), ev).keys)
    ensures ReqsEvolve(Replay(h).reqs, Apply(Replay(h), ev).reqs)
    ensures forall t :: Some(t) != WrittenTenant(ev) ==>
      (t in Apply(Replay(h), ev).reqs <==> t in Replay(h).reqs)
      && (t in Replay(h).reqs ==> Apply(Replay(h), ev).reqs[t] == Replay(h).reqs[t])
  {
  }

  // ---------------------------------------------------------------- whole histories

  /** Laws 1 and 3: key status and the set of tenants only move forward, "approved" is absorbing. */
  lemma {:induction false} HistoryEvolves(h: History, n: nat)
    requires LegalHistory(h) && n <= |h|
    ensures KeysEvolve(Replay(h[..n]).keys, Replay(h).keys)
    ensures ReqsEvolve(Replay(h[..n]).reqs, Replay(h).reqs)
    decreases |h|
  {
    if n == |h| {
      assert h[..n] == h;
    } else {
      assert Front(h)[..n] == h[..n];
      HistoryEvolves(Front(h), n);
      EventEvolves(Front(h), Last(h));
    }
  }

  lemma ConsumeEffect(h: History, ev: Event)
    requires Legal(h, ev) && ev.KeyConsumed?
    ensures ev.key in Replay(h).keys && Replay(h).keys[ev.key].status == Open
    ensures var keys := Apply(Replay(h), ev).keys;
            ev.key in keys && keys[ev.key].status == Used && keys[ev.key].tenantId == ev.tenant
  {
  }

  /** A consumed key is spent in every later store. */
  lemma SpentAfterConsume(h: History, i: nat)
    requires LegalHistory(h) && i < |h| && h[i].KeyConsumed?
    ensures h[i].key in Replay(h).keys && Replay(h).keys[h[i].key].status == Used
    ensures Replay(h).keys[h[i].key].tenantId == h[i].tenant
  {
    LegalAt(h, i);
    ConsumeEffect(h[..i], h[i]);
    HistoryEvolves(h, i + 1);
  }

  /** Single use: no two handshakes ever succeed with the same key. */
  lemma KeysAreSingleUse(h: History, i: nat, j: nat)
    requires LegalHistory(h) && i < j < |h|
    requires h[i].KeyConsumed? && h[j].KeyConsumed?
    ensures h[i].key != h[j].key
  {
    LegalAt(h, j);
    ConsumeEffect(h[..j], h[j]);
    assert h[..j][i] == h[i];
    SpentAfterConsume(h[..j], i);
  }

  /** A key is created once, and the entry read later is the one created then. */
  ghost predicate CreatedAs(h: History, i: nat, e: KeyEntry)
    requires i < |h|
  {
    h[i].KeyCreated? && h[i].key == e.key && h[i].tenant == e.tenantId && h[i].at == e.createdAt
    && e.expiresAt == h[i].at + JOIN_KEY_TTL_HOURS * HOUR
  }

  lemma {:induction false} KeyOrigin(h: History, key: string) returns (i: nat)
    requires LegalHistory(h) && key in Replay(h).keys
    ensures i < |h| && CreatedAs(h, i, Replay(h).keys[key]) && h[i].key == key
  {
    var f := Front(h);
    if Last(h).KeyCreated? && Last(h).key == key {
      i := |h| - 1;
    } else {
      assert key in Replay(f).keys;
      i := KeyOrigin(f, key);
      EventEvolves(f, Last(h));
    }
  }

  /** Every accepted key was created earlier, for that tenant, and checked within its 168 hours. */
  lemma AcceptedWithinTtl(h: History, j: nat) returns (i: nat)
    requires LegalHistory(h) && j < |h| && h[j].KeyConsumed?
    ensures i < j && h[i].KeyCreated? && h[i].key == h[j].key && h[i].tenant == h[j].tenant
    ensures h[j].checkedAt <= h[i].at + 168 * 3_600_000_000
  {
    LegalAt(h, j);
    i := KeyOrigin(h[..j], h[j].key);
    assert h[..j][i] == h[i];
  }

  /** Conversely no key lapses early: each one that did was presented after its 168 hours. */
  lemma LapsedAfterTtl(h: History, j: nat) returns (i: nat)
    requires LegalHistory(h) && j < |h| && h[j].KeyLapsed?
    ensures i < j && h[i].KeyCreated? && h[i].key == h[j].key && h[i].tenant == h[j].tenant
    ensures h[j].at > h[i].at + 168 * 3_600_000_000
  {
    LegalAt(h, j);
    i := KeyOrigin(h[..j], h[j].key);
    assert h[..j][i] == h[i];
  }

  /** Some handshake found the key open, in time or late. */
  ghost predicate Presented(h: History, key: string) {
    exists i :: 0 <= i < |h| && (h[i].KeyConsumed? || h[i].KeyLapsed?) && h[i].key == key
  }

  lemma {:induction false} OpenIffNotPresented(h: History, key: string)
    requires LegalHistory(h)
    ensures Presented(h, key) ==> key in Replay(h).keys && Replay(h).keys[key].status != Open
    ensures key in Replay(h).keys && !Presented(h, key) ==> Replay(h).keys[key].status == Open
  {
    if h != [] {
      var f, ev := Front(h), Last(h);
      OpenIffNotPresented(f, key);
      assert forall i :: 0 <= i < |h| ==> h[i] == if i < |f| then f[i] else ev;
      assert Presented(h, key) <==> Presented(f, key) || ((ev.KeyConsumed? || ev.KeyLapsed?) && ev.key == key) by {
        if Presented(f, key) {
          var i :| 0 <= i < |f| && (f[i].KeyConsumed? || f[i].KeyLapsed?) && f[i].key == key;
          assert h[i].key == key;
        }
        assert h[|f|] == ev;
      }
      EventEvolves(f, ev);
    }
  }

  /**
   The verdict on a key at any moment, told by its history alone: unknown iff it was never created,
   and of a created one the first handshake within 168 hours is accepted and no other one.
   */
  lemma KeyVerdict(h: History, key: string, checkedAt: Time, usedAt: Time) returns (i: nat)
    requires LegalHistory(h)
    ensures Consume(Replay(h).keys, key, checkedAt, usedAt).UnknownKey? <==> key !in Replay(h).keys
    ensures key in Replay(h).keys ==>
      && i < |h| && h[i].KeyCreated? && h[i].key == key && h[i].tenant == Replay(h).keys[key].tenantId
      && (Consume(Replay(h).keys, key, checkedAt, usedAt).AcceptedKey? <==>
            !Presented(h, key) && checkedAt <= h[i].at + 168 * 3_600_000_000)
      && (Consume(Replay(h).keys, key, checkedAt, usedAt).LapsedKey? <==>
            !Presented(h, key) && checkedAt > h[i].at + 168 * 3_600_000_000)
  {
    i := 0;
    if key in Replay(h).keys {
      i := KeyOrigin(h, key);
      OpenIffNotPresented(h, key);
    }
  }

  // ---------------------------------------------------------------- conservation of keys

  function KeysOf(keys: KeyDict, tenant: string, status: KeyStatus): set<string> {
    set k | k in keys && keys[k].tenantId == tenant && keys[k].status == status
  }

  function CountCreated(h: History, tenant: string): nat {
    if h == [] then 0
    else CountCreated(Front(h), tenant) + if Last(h).KeyCreated? && Last(h).tenant == tenant then 1 else 0
  }

  function CountConsumed(h: History, tenant: string): nat {
    if h == [] then 0
    else CountConsumed(Front(h), tenant) + if Last(h).KeyConsumed? && Last(h).tenant == tenant then 1 else 0
  }

  function CountLapsed(h: History, tenant: string): nat {
    if h == [] then 0
    else CountLapsed(Front(h), tenant) + if Last(h).KeyLapsed? && Last(h).tenant == tenant then 1 else 0
  }

  function CountProvisioned(h: History, tenant: string): nat {
    if h == [] then 0
    else CountProvisioned(Front(h), tenant) + if Last(h).ProvisionStarted? && Last(h).tenant == tenant then 1 else 0
  }

  /** Adding an entry for a key moves it between the three sets of its tenant and no others. */
  lemma KeysOfUpdate(keys: KeyDict, key: string, e: KeyEntry, tenant: string, status: KeyStatus)
    ensures KeysOf(keys[key := e], tenant, status)
      == KeysOf(keys, tenant, status) - {key} + if e.tenantId == tenant && e.status == status then {key} else {}
  {
  }

  lemma CardAdd(s: set<string>, k: string)
    requires k !in s
    ensures |s + {k}| == |s| + 1
  {
  }

  lemma CardRemove(s: set<string>, k: string)
    requires k in s
    ensures |s - {k}| == |s| - 1
  {
  }

  /** Conservation: every key prepared for a tenant is still open, was consumed once, or lapsed once. */
  lemma {:induction false} KeyConservation(h: History, tenant: string)
    requires LegalHistory(h)
    ensures |KeysOf(Replay(h).keys, tenant, Used)| == CountConsumed(h, tenant)
    ensures |KeysOf(Replay(h).keys, tenant, Expired)| == CountLapsed(h, tenant)
    ensures |KeysOf(Replay(h).keys, tenant, Open)| + CountConsumed(h, tenant) + CountLapsed(h, tenant)
         == CountCreated(h, tenant)
  {
    if h == [] {
      assert forall s :: KeysOf(EMPTY_DB.keys, tenant, s) == {};
    } else {
      KeyConservation(Front(h), tenant);
      var keys, ev := Replay(Front(h)).keys, Last(h);
      if ev.KeyCreated? || ev.KeyLapsed? || ev.KeyConsumed? {
        var e := Replay(h).keys[ev.key];
        KeyMoves(keys, ev.key, e, tenant, Open);
        KeyMoves(keys, ev.key, e, tenant, Used);
        KeyMoves(keys, ev.key, e, tenant, Expired);
      }
    }
  }

  /** The size of one such set when one key entry is written. */
  lemma KeyMoves(keys: KeyDict, key: string, e: KeyEntry, tenant: string, status: KeyStatus)
    ensures |KeysOf(keys[key := e], tenant, status)|
         == |KeysOf(keys, tenant, status)|
            - (if key in KeysOf(keys, tenant, status) then 1 else 0)
            + (if e.tenantId == tenant && e.status == status then 1 else 0)
  {
    var before := KeysOf(keys, tenant, status);
    KeysOfUpdate(keys, key, e, tenant, status);
    if key in before {
      CardRemove(before, key);
    } else {
      assert before - {key} == before;
    }
    CardAdd(before - {key}, key);
    assert before - {key} + {} == before - {key};
  }

  ghost function ProvisionedKeys(h: History, tenant: string): set<string> {
    set i | 0 <= i < |h| && h[i].ProvisionStarted? && h[i].tenant == tenant :: h[i].key
  }

  lemma ProvisionedKeysFront(h: History, tenant: string)
    requires h != []
    ensures ProvisionedKeys(h, tenant) == ProvisionedKeys(Front(h), tenant)
      + if Last(h).ProvisionStarted? && Last(h).tenant == tenant then {Last(h).key} else {}
  {
    var f := Front(h);
    assert forall i :: 0 <= i < |f| ==> h[i] == f[i];
    forall k | k in ProvisionedKeys(f, tenant) ensures k in ProvisionedKeys(h, tenant) {
      var i :| 0 <= i < |f| && f[i].ProvisionStarted? && f[i].tenant == tenant && f[i].key == k;
      assert h[i].key == k;
    }
  }

  lemma UsedKeysKept(a: KeyDict, b: KeyDict, tenant: string)
    requires KeysEvolve(a, b)
    ensures KeysOf(a, tenant, Used) <= KeysOf(b, tenant, Used)
  {
  }

  /** A provisioning start has a used key of its tenant that no earlier one had. */
  lemma ProvisionUsesItsKey(h: History, ev: Event)
    requires LegalHistory(h) && Legal(h, ev) && ev.ProvisionStarted?
    ensures ev.key in KeysOf(Replay(h).keys, ev.tenant, Used)
    ensures Apply(Replay(h), ev) == Replay(h)
    ensures ev.key !in ProvisionedKeys(h, ev.tenant)
  {
    var i :| 0 <= i < |h| && h[i].KeyConsumed? && h[i].task == ev.task && h[i].key == ev.key;
    SpentAfterConsume(h, i);
  }

  /** Provisioning starts are counted by distinct keys, all of them used ones of that tenant. */
  lemma {:induction false} ProvisionsAreUsedKeys(h: History, tenant: string)
    requires LegalHistory(h)
    ensures |ProvisionedKeys(h, tenant)| == CountProvisioned(h, tenant)
    ensures ProvisionedKeys(h, tenant) <= KeysOf(Replay(h).keys, tenant, Used)
  {
    if h == [] {
      assert ProvisionedKeys(h, tenant) == {};
    } else {
      var f, ev := Front(h), Last(h);
      ProvisionsAreUsedKeys(f, tenant);
      ProvisionedKeysFront(h, tenant);
      if ev.ProvisionStarted? && ev.tenant == tenant {
        ProvisionUsesItsKey(f, ev);
        CardAdd(ProvisionedKeys(f, tenant), ev.key);
      } else {
        EventEvolves(f, ev);
        UsedKeysKept(Replay(f).keys, Replay(h).keys, tenant);
        assert ProvisionedKeys(h, tenant) == ProvisionedKeys(f, tenant);
      }
    }
  }

  lemma OpenKeyNotProvisioned(h: History, key: string)
    requires LegalHistory(h) && key in Replay(h).keys && Replay(h).keys[key].status == Open
    ensures !ProvisionedBefore(h, key)
  {
    forall i | 0 <= i < |h| && h[i].ProvisionStarted? ensures h[i].key != key {
      ProvisionsAreUsedKeys(h, h[i].tenant);
      assert h[i].key in ProvisionedKeys(h, h[i].tenant);
    }
  }

  lemma CardSubset(a: set<string>, b: set<string>)
    requires a <= b
    ensures |a| <= |b|
  {
    if a != {} {
      var x :| x in a;
      CardSubset(a - {x}, b - {x});
    }
  }

  /** Counting: provisioning runs for a tenant never exceed the keys prepared for it. */
  lemma ProvisionsBounded(h: History, tenant: string)
    requires LegalHistory(h)
    ensures CountProvisioned(h, tenant) <= CountConsumed(h, tenant) <= CountCreated(h, tenant)
  {
    ProvisionsAreUsedKeys(h, tenant);
    KeyConservation(h, tenant);
    CardSubset(ProvisionedKeys(h, tenant), KeysOf(Replay(h).keys, tenant, Used));
  }

  // ---------------------------------------------------------------- request entries

  predicate BundleAbsent(e: JoinEntry) {
    && e.approvedAt == None && e.signedCert == None && e.rootCaCert == None
    && e.rabbitmqUrl == None && e.rabbitmqVhost == None && e.rabbitmqUser == None
    && e.mqttBridgeCert == None && e.cdmIdpClientId == None
    && e.cdmIdpClientSecret == None && e.cdmDiscoveryUrl == None
  }

  predicate BundlePresent(e: JoinEntry) {
    && e.approvedAt.Some? && e.signedCert.Some? && e.rootCaCert.Some?
    && e.rabbitmqUrl.Some? && e.rabbitmqVhost.Some? && e.rabbitmqUser.Some?
    && e.mqttBridgeCert.Some? && e.cdmIdpClientId.Some?
    && e.cdmIdpClientSecret.Some? && e.cdmDiscoveryUrl.Some?
  }

  /** What an entry of each status holds; the three wg_* fields are never filled. */
  predicate WellShaped(tenant: string, e: JoinEntry) {
    && e.tenantId == tenant
    && TenantIdPossible(tenant)
    && e.wgServerPubkey == None && e.wgServerEndpoint == None && e.wgClientIp == None
    && match e.status
       case Pending => BundleAbsent(e) && e.rejectedAt == None && e.rejectedReason == None
       case Rejected =>
         BundleAbsent(e) && e.rejectedAt.Some? && e.rejectedReason.Some? && e.rejectedReason.value != ""
       case Approved =>
         BundlePresent(e) && e.rabbitmqVhost == Some(tenant) && e.rabbitmqUser == Some(MqttUser(tenant))
  }

  lemma {:induction false} EntriesWellShaped(h: History, tenant: string)
    requires LegalHistory(h) && tenant in Replay(h).reqs
    ensures WellShaped(tenant, Replay(h).reqs[tenant])
  {
    var f := Front(h);
    if tenant in Replay(f).reqs {
      EntriesWellShaped(f, tenant);
    }
    EventEvolves(f, Last(h));
  }

  // ---------------------------------------------------------------- the approve gap

  /** The last event in h[from..upto] that writes the tenant's entry. */
  ghost function LastWrite(h: History, tenant: string, from: nat, upto: nat): Option<Event>
    requires from <= upto <= |h|
    decreases upto
  {
    if from == upto then None
    else if WrittenTenant(h[upto - 1]) == Some(tenant) then Some(h[upto - 1])
    else LastWrite(h, tenant, from, upto - 1)
  }

  function StatusWritten(ev: Event): Status {
    match ev
    case Submitted(_, _, _, _) => Pending
    case RejectedBy(_, _, _, _) => Rejected
    case _ => Approved
  }

  /** The latest resubmission in h[from..upto], if any. */
  ghost function LastSubmit(h: History, tenant: string, from: nat, upto: nat): Option<Payload>
    requires from <= upto <= |h|
    decreases upto
  {
    if from == upto then None
    else if h[upto - 1].Submitted? && h[upto - 1].tenant == tenant then Some(h[upto - 1].payload)
    else LastSubmit(h, tenant, from, upto - 1)
  }

  lemma WriteEffect(h: History, ev: Event, tenant: string)
    requires Legal(h, ev) && tenant in Replay(h).reqs
    ensures tenant in Apply(Replay(h), ev).reqs
    ensures var e, e' := Replay(h).reqs[tenant], Apply(Replay(h), ev).reqs[tenant];
            && (WrittenTenant(ev) != Some(tenant) ==> e' == e)
            && (WrittenTenant(ev) == Some(tenant) ==> e'.status == StatusWritten(ev))
            && e'.payload == if ev.Submitted? && ev.tenant == tenant then ev.payload else e.payload
  {
  }

  /**
   What other tasks can do to an entry between two points of a history: its status is that
   of the last write, its payload that of the last submission, and with no write it is unchanged.
   */
  lemma {:induction false} EntryAcrossGap(h: History, tenant: string, from: nat, upto: nat)
    requires LegalHistory(h) && from <= upto <= |h| && tenant in Replay(h[..from]).reqs
    ensures tenant in Replay(h[..upto]).reqs
    ensures var write := LastWrite(h, tenant, from, upto);
            && (write.None? ==> Replay(h[..upto]).reqs[tenant] == Replay(h[..from]).reqs[tenant])
            && (write.Some? ==> Replay(h[..upto]).reqs[tenant].status == StatusWritten(write.value))
    ensures var resent := LastSubmit(h, tenant, from, upto);
            Replay(h[..upto]).reqs[tenant].payload ==
              (if resent.Some? then resent.value else Replay(h[..from]).reqs[tenant].payload)
    decreases upto
  {
    if from < upto {
      EntryAcrossGap(h, tenant, from, upto - 1);
      WriteAt(h, upto - 1, tenant);
    }
  }

  /** The same for the i-th event of a history. */
  lemma WriteAt(h: History, i: nat, tenant: string)
    requires LegalHistory(h) && i < |h| && tenant in Replay(h[..i]).reqs
    ensures tenant in Replay(h[..i + 1]).reqs
    ensures var e, e' := Replay(h[..i]).reqs[tenant], Replay(h[..i + 1]).reqs[tenant];
            && (WrittenTenant(h[i]) != Some(tenant) ==> e' == e)
            && (WrittenTenant(h[i]) == Some(tenant) ==> e'.status == StatusWritten(h[i]))
            && e'.payload == if h[i].Submitted? && h[i].tenant == tenant then h[i].payload else e.payload
  {
    LegalAt(h, i);
    WriteEffect(h[..i], h[i], tenant);
  }

  lemma CheckEffect(h: History, ev: Event)
    requires Legal(h, ev) && ev.ApproveChecked?
    ensures ev.tenant in Replay(h).reqs && Replay(h).reqs[ev.tenant] == ev.seen && ev.seen.status == Pending
    ensures Apply(Replay(h), ev) == Replay(h)
  {
  }

  /**
   What an approve commits onto. The entry is certainly still there. It is the very entry that
   was checked when nothing wrote the tenant in the gap; it is pending iff the last write in the
   gap, if any, was a resubmission; and the CSR stored beside the signed certificate is the one
   that was signed whenever no resubmission fell into the gap.
   */
  lemma ApproveCommitsOnto(h: History, i: nat, j: nat)
    requires LegalHistory(h) && i < j < |h|
    requires h[i].ApproveChecked? && h[j].ApproveCommitted?
    requires h[i].task == h[j].task && h[i].tenant == h[j].tenant
    ensures h[j].tenant in Replay(h[..j]).reqs
    ensures var before := Replay(h[..j]).reqs[h[j].tenant];
            var write := LastWrite(h, h[i].tenant, i + 1, j);
            && (write.None? ==> before == h[i].seen)
            && (before.status == Pending <==> write.None? || write.value.Submitted?)
    ensures h[j].tenant in Replay(h[..j + 1]).reqs
    ensures var resent := LastSubmit(h, h[i].tenant, i + 1, j);
            Replay(h[..j + 1]).reqs[h[j].tenant].payload == (if resent.Some? then resent.value else h[i].seen.payload)
  {
    var tenant := h[i].tenant;
    LegalAt(h, i);
    CheckEffect(h[..i], h[i]);
    EntryAcrossGap(h, tenant, i + 1, j);
    LegalAt(h, j);
    WriteEffect(h[..j], h[j], tenant);
  }

  /** The indexing `store[tenant_id]` of a commit never fails, although the check was long ago. */
  lemma CommitFindsEntry(h: History, j: nat)
    requires LegalHistory(h) && j < |h| && h[j].ApproveCommitted?
    ensures h[j].tenant in Replay(h[..j]).reqs
  {
    LegalAt(h, j);
    var i :| 0 <= i < |h[..j]| && h[..j][i].ApproveChecked?
             && h[..j][i].task == h[j].task && h[..j][i].tenant == h[j].tenant;
    ApproveCommitsOnto(h, i, j);
  }

  // ---------------------------------------------------------------- what a poll tells

  /** A poll that shows this write. */
  predicate Tells(s: JoinStatus, ev: Event) {
    match ev
    case Submitted(_, _, _, _) => s.status == Pending && s.signedCert == None
    case RejectedBy(_, _, _, _) => s.status == Rejected && s.signedCert == None
    case ApproveCommitted(_, _, bundle, _) => Delivers(s, bundle)
    case _ => false
  }

  /** The last reject of a tenant that no later submission wiped out; an approve leaves it standing. */
  ghost function StandingReject(h: History, tenant: string, upto: nat): Option<Event>
    requires upto <= |h|
  {
    if upto == 0 then None
    else
      var ev := h[upto - 1];
      if ev.RejectedBy? && ev.tenant == tenant then Some(ev)
      else if ev.Submitted? && ev.tenant == tenant then None
      else StandingReject(h, tenant, upto - 1)
  }

  /** The two reject fields of an entry are those of this event, null without one. */
  predicate ShowsReject(e: JoinEntry, reject: Option<Event>) {
    match reject
    case Some(RejectedBy(_, _, reason, at)) =>
      e.rejectedAt == Some(at)
      && e.rejectedReason == Some(if reason != "" then reason else "Rejected by provider admin.")
    case _ => e.rejectedAt == None && e.rejectedReason == None
  }

  lemma WriteTells(h: History, i: nat, tenant: string)
    requires LegalHistory(h) && i < |h| && WrittenTenant(h[i]) == Some(tenant)
    ensures tenant in Replay(h[..i + 1]).reqs
    ensures Tells(StatusOf(tenant, Replay(h[..i + 1]).reqs[tenant]), h[i])
  {
    LegalAt(h, i);
    if h[i].ApproveCommitted? {
      CommitFindsEntry(h, i);
    } else if h[i].RejectedBy? {
      EntriesWellShaped(h[..i], tenant);
    }
  }

  lemma WriteShowsReject(h: History, i: nat, tenant: string, before: Option<Event>)
    requires LegalHistory(h) && i < |h| && WrittenTenant(h[i]) == Some(tenant)
    requires tenant in Replay(h[..i]).reqs ==> ShowsReject(Replay(h[..i]).reqs[tenant], before)
    ensures tenant in Replay(h[..i + 1]).reqs
    ensures ShowsReject(Replay(h[..i + 1]).reqs[tenant],
                        if h[i].RejectedBy? then Some(h[i]) else if h[i].Submitted? then None else before)
  {
    LegalAt(h, i);
    if h[i].ApproveCommitted? {
      CommitFindsEntry(h, i);
    }
  }

  lemma UnwrittenAt(h: History, i: nat, tenant: string)
    requires LegalHistory(h) && i < |h| && WrittenTenant(h[i]) != Some(tenant)
    ensures tenant in Replay(h[..i + 1]).reqs <==> tenant in Replay(h[..i]).reqs
    ensures tenant in Replay(h[..i]).reqs ==> Replay(h[..i + 1]).reqs[tenant] == Replay(h[..i]).reqs[tenant]
  {
    LegalAt(h, i);
    EventEvolves(h[..i], h[i]);
  }

  /**
   A tenant is listed iff something was written for it, and its poll tells the last write. Whatever
   its status, it shows the reject that stands since the last submission, also beside an approve.
   */
  lemma {:induction false} PollTellsLastWrite(h: History, tenant: string, n: nat)
    requires LegalHistory(h) && n <= |h|
    ensures var last := LastWrite(h, tenant, 0, n);
            && (tenant in Replay(h[..n]).reqs <==> last.Some?)
            && (last.Some? ==> Tells(StatusOf(tenant, Replay(h[..n]).reqs[tenant]), last.value))
    ensures tenant in Replay(h[..n]).reqs ==>
      ShowsReject(Replay(h[..n]).reqs[tenant], StandingReject(h, tenant, n))
  {
    if n > 0 {
      PollTellsLastWrite(h, tenant, n - 1);
      if WrittenTenant(h[n - 1]) == Some(tenant) {
        WriteTells(h, n - 1, tenant);
        WriteShowsReject(h, n - 1, tenant, StandingReject(h, tenant, n - 1));
      } else {
        UnwrittenAt(h, n - 1, tenant);
      }
    }
  }

  lemma NeverCreated(h: History, key: string, j: nat)
    requires LegalHistory(h) && key !in Replay(h).keys && j < |h|
    ensures !(h[j].KeyCreated? && h[j].key == key)
  {
    LegalAt(h, j);
    HistoryEvolves(h, j + 1);
  }

  /**
   What was found, told by the events before it alone: a key is unknown iff nobody created it and
   spent iff it was presented before, and a tenant's request is answered by its last write.
   */
  lemma FindingsAreRight(h: History, i: nat)
    requires LegalHistory(h) && i < |h|
    ensures h[i].KeyUnknown? ==> forall j :: 0 <= j < i ==> !(h[j].KeyCreated? && h[j].key == h[i].key)
    ensures h[i].KeySpent? ==> Presented(h[..i], h[i].key)
    ensures h[i].KeyConsumed? || h[i].KeyLapsed? ==> !Presented(h[..i], h[i].key)
    ensures h[i].RejectUnknown? || h[i].ApproveUnknown? ==> LastWrite(h, h[i].tenant, 0, i) == None
    ensures h[i].SubmitRefused? || h[i].RejectRefused? ==>
      LastWrite(h, h[i].tenant, 0, i).Some? && LastWrite(h, h[i].tenant, 0, i).value.ApproveCommitted?
    ensures h[i].Submitted? || h[i].RejectedBy? ==>
      LastWrite(h, h[i].tenant, 0, i).Some? ==> !LastWrite(h, h[i].tenant, 0, i).value.ApproveCommitted?
    ensures h[i].RejectedBy? || h[i].ApproveRefused? || h[i].ApproveChecked? ==>
      LastWrite(h, h[i].tenant, 0, i).Some?
    ensures h[i].ApproveRefused? ==> !LastWrite(h, h[i].tenant, 0, i).value.Submitted?
    ensures h[i].ApproveChecked? ==> LastWrite(h, h[i].tenant, 0, i).value.Submitted?
  {
    LegalAt(h, i);
    var f := h[..i];
    match h[i]
    case KeyUnknown(_, key) =>
      forall j | 0 <= j < i ensures !(h[j].KeyCreated? && h[j].key == key) {
        NeverCreated(f, key, j);
        assert f[j] == h[j];
      }
    case KeySpent(_, key, _) => OpenIffNotPresented(f, key);
    case KeyConsumed(_, key, _, _, _) => OpenIffNotPresented(f, key);
    case KeyLapsed(_, key, _, _) => OpenIffNotPresented(f, key);
    case KeyCreated(_, _, _, _, _) =>
    case ProvisionStarted(_, _, _) =>
    case _ => LastWriteShown(h, h[i].tenant, i);
  }

  /** The stored status is that of the last write. */
  lemma LastWriteShown(h: History, tenant: string, n: nat)
    requires LegalHistory(h) && n <= |h|
    ensures tenant in Replay(h[..n]).reqs <==> LastWrite(h, tenant, 0, n).Some?
    ensures tenant in Replay(h[..n]).reqs ==>
      var write, status := LastWrite(h, tenant, 0, n).value, Replay(h[..n]).reqs[tenant].status;
      && (status == Pending <==> write.Submitted?) && (status == Rejected <==> write.RejectedBy?)
      && (status == Approved <==> write.ApproveCommitted?)
  {
    PollTellsLastWrite(h, tenant, n);
  }
}
