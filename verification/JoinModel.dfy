/**
 The records of the JOIN workflow and what each handler computes from a loaded
 dict, before anything is written back: single-use keys (join_key_store.py),
 tenant requests (join_store.py) and the provisioning pipeline (join.py).
 */
module JoinModel {
  import opened Common

  type TaskId = nat

  /** Microseconds since the epoch; ISO-8601 text keeps exactly that resolution. */
  type Time = int

  const JOIN_KEY_TTL_HOURS: int := 7 * 24
  const HOUR: int := 3_600_000_000

  // ---------------------------------------------------------------- keys

  /** The header comment of the source names "revoked", but no code writes it; "expired" is written. */
  datatype KeyStatus = Open | Used | Expired

  datatype KeyEntry = KeyEntry(
    key: string,
    tenantId: string,
    displayName: string,
    status: KeyStatus,
    createdAt: Time,
    expiresAt: Time,
    usedAt: Option<Time>)

  type KeyDict = map<string, KeyEntry>

  function NewKey(key: string, tenant: string, name: string, now: Time): KeyEntry {
    KeyEntry(key, tenant, name, Open, now, now + JOIN_KEY_TTL_HOURS * HOUR, None)
  }

  datatype Consumption =
    | UnknownKey
    | SpentKey(status: KeyStatus)
    | LapsedKey(stored: KeyEntry)
    | AcceptedKey(stored: KeyEntry)

  /** What validate_and_consume decides on the loaded dict; the clock is read twice. */
  function Consume(keys: KeyDict, key: string, checkedAt: Time, usedAt: Time): Consumption {
    if key !in keys then UnknownKey
    else if keys[key].status != Open then SpentKey(keys[key].status)
    else if checkedAt > keys[key].expiresAt then LapsedKey(keys[key].(status := Expired))
    else AcceptedKey(keys[key].(status := Used, usedAt := Some(usedAt)))
  }

  // ---------------------------------------------------------------- requests

  datatype Status = Pending | Approved | Rejected

  datatype Payload = Payload(
    displayName: string,
    subCaCsr: string,
    mqttBridgeCsr: string,
    wgPubkey: string,
    keycloakUrl: string)

  /** Values that approve writes into an entry. */
  datatype Bundle = Bundle(
    signedCert: string,
    rootCaCert: string,
    rabbitmqUrl: string,
    rabbitmqVhost: string,
    rabbitmqUser: string,
    mqttBridgeCert: string,
    cdmIdpClientId: string,
    cdmIdpClientSecret: string,
    cdmDiscoveryUrl: string)

  datatype JoinEntry = JoinEntry(
    tenantId: string,
    payload: Payload,
    status: Status,
    requestedAt: Time,
    approvedAt: Option<Time>,
    rejectedAt: Option<Time>,
    rejectedReason: Option<string>,
    signedCert: Option<string>,
    rootCaCert: Option<string>,
    rabbitmqUrl: Option<string>,
    rabbitmqVhost: Option<string>,
    rabbitmqUser: Option<string>,
    mqttBridgeCert: Option<string>,
    cdmIdpClientId: Option<string>,
    cdmIdpClientSecret: Option<string>,
    cdmDiscoveryUrl: Option<string>,
    wgServerPubkey: Option<string>,
    wgServerEndpoint: Option<string>,
    wgClientIp: Option<string>)

  type JoinDict = map<string, JoinEntry>

  predicate IsLower(c: char) { 'a' <= c <= 'z' }

  predicate IsUpper(c: char) { 'A' <= c <= 'Z' }

  function WithoutHyphens(s: string): string {
    if s == "" then "" else (if s[0] == '-' then "" else [s[0]]) + WithoutHyphens(s[1..])
  }

  /** Python's `isalnum` on ASCII text: non-empty, letters and digits only. */
  predicate IsAlnum(s: string) {
    s != "" && forall i :: 0 <= i < |s| ==> IsLower(s[i]) || IsUpper(s[i]) || IsDigit(s[i])
  }

  /** Python's `islower` on ASCII text: some letter, and no capital. */
  predicate IsLowerText(s: string) {
    (exists i :: 0 <= i < |s| && IsLower(s[i])) && forall i :: 0 <= i < |s| ==> !IsUpper(s[i])
  }

  predicate IsAscii(s: string) { forall i :: 0 <= i < |s| ==> s[i] < 128 as char }

  predicate AsciiTenantId(tenant: string) {
    IsAlnum(WithoutHyphens(tenant)) && IsLowerText(tenant)
  }

  /** Python also accepts letters and digits of other scripts; what it says of such a text is left open. */
  predicate TenantIdAccepted(tenant: string, otherScript: bool) {
    if IsAscii(tenant) then AsciiTenantId(tenant) else otherScript
  }

  lemma {:induction false} WithoutHyphensKeeps(s: string)
    ensures forall c :: c in WithoutHyphens(s) <==> c in s && c != '-'
  {
    if s != "" {
      WithoutHyphensKeeps(s[1..]);
      assert s == [s[0]] + s[1..];
    }
  }

  /** Which ASCII names pass: small letters, digits and hyphens only, and at least one letter. */
  lemma TenantIdMeans(tenant: string)
    ensures AsciiTenantId(tenant) <==>
      (forall c :: c in tenant ==> 'a' <= c <= 'z' || '0' <= c <= '9' || c == '-')
      && (exists c :: c in tenant && 'a' <= c <= 'z')
  {
    WithoutHyphensKeeps(tenant);
    var rest := WithoutHyphens(tenant);
    if AsciiTenantId(tenant) {
      forall c | c in tenant ensures 'a' <= c <= 'z' || '0' <= c <= '9' || c == '-' {
        if c != '-' {
          assert c in rest;
        }
      }
      var i :| 0 <= i < |tenant| && IsLower(tenant[i]);
      assert tenant[i] in tenant;
    } else if (forall c :: c in tenant ==> 'a' <= c <= 'z' || '0' <= c <= '9' || c == '-')
              && exists c :: c in tenant && 'a' <= c <= 'z' {
      var c :| c in tenant && 'a' <= c <= 'z';
      assert c in rest;
      forall i | 0 <= i < |rest| ensures rest[i] in tenant && rest[i] != '-' {
        assert rest[i] in rest;
      }
      assert forall i :: 0 <= i < |tenant| ==> tenant[i] in tenant;
    }
  }

  predicate TenantIdPossible(tenant: string) { IsAscii(tenant) ==> AsciiTenantId(tenant) }

  predicate AlreadyApproved(reqs: JoinDict, tenant: string) {
    tenant in reqs && reqs[tenant].status == Approved
  }

  function PendingEntry(tenant: string, payload: Payload, now: Time): JoinEntry {
    JoinEntry(tenant, payload, Pending, now, None, None, None,
              None, None, None, None, None, None, None, None, None, None, None, None)
  }

  const DEFAULT_REASON := "Rejected by provider admin."

  function RejectEntry(e: JoinEntry, reason: string, now: Time): JoinEntry {
    e.(status := Rejected,
       rejectedAt := Some(now),
       rejectedReason := Some(if reason == "" then DEFAULT_REASON else reason))
  }

  function ApproveEntry(e: JoinEntry, b: Bundle, now: Time): JoinEntry {
    e.(status := Approved,
       approvedAt := Some(now),
       signedCert := Some(b.signedCert),
       rootCaCert := Some(b.rootCaCert),
       rabbitmqUrl := Some(b.rabbitmqUrl),
       rabbitmqVhost := Some(b.rabbitmqVhost),
       rabbitmqUser := Some(b.rabbitmqUser),
       mqttBridgeCert := Some(b.mqttBridgeCert),
       cdmIdpClientId := Some(b.cdmIdpClientId),
       cdmIdpClientSecret := Some(b.cdmIdpClientSecret),
       cdmDiscoveryUrl := Some(b.cdmDiscoveryUrl))
  }

  /** The answer to a status poll; a field the entry holds as null stays null. */
  datatype JoinStatus = JoinStatus(
    tenantId: string,
    status: Status,
    signedCert: Option<string>,
    rootCaCert: Option<string>,
    rabbitmqUrl: Option<string>,
    rabbitmqVhost: Option<string>,
    rabbitmqUser: Option<string>,
    mqttBridgeCert: Option<string>,
    cdmIdpClientId: Option<string>,
    cdmIdpClientSecret: Option<string>,
    cdmDiscoveryUrl: Option<string>,
    wgServerPubkey: Option<string>,
    wgServerEndpoint: Option<string>,
    wgClientIp: Option<string>,
    rejectedReason: Option<string>)

  function StatusOf(tenant: string, e: JoinEntry): JoinStatus {
    JoinStatus(tenant, e.status, e.signedCert, e.rootCaCert, e.rabbitmqUrl, e.rabbitmqVhost, e.rabbitmqUser,
               e.mqttBridgeCert, e.cdmIdpClientId, e.cdmIdpClientSecret, e.cdmDiscoveryUrl,
               e.wgServerPubkey, e.wgServerEndpoint, e.wgClientIp, e.rejectedReason)
  }

  /** The poll hands over exactly this bundle. */
  predicate Delivers(s: JoinStatus, b: Bundle) {
    && s.status == Approved
    && s.signedCert == Some(b.signedCert) && s.rootCaCert == Some(b.rootCaCert)
    && s.rabbitmqUrl == Some(b.rabbitmqUrl) && s.rabbitmqVhost == Some(b.rabbitmqVhost)
    && s.rabbitmqUser == Some(b.rabbitmqUser) && s.mqttBridgeCert == Some(b.mqttBridgeCert)
    && s.cdmIdpClientId == Some(b.cdmIdpClientId) && s.cdmIdpClientSecret == Some(b.cdmIdpClientSecret)
    && s.cdmDiscoveryUrl == Some(b.cdmDiscoveryUrl)
  }

  // ---------------------------------------------------------------- provisioning

  datatype Settings = Settings(rabbitmqUrl: string, discoveryUrl: string)

  datatype Stage = SignCsr | Rabbit | BridgeCert | Federation

  /**
   How a stage's HTTP calls end: with up to three strings, with the client's own
   error class, or with any other exception.
   */
  datatype Outcome = Replied(first: string, second: string, third: string) | Refused(msg: string) | Crashed(msg: string)

  datatype Draft = Draft(
    signedCert: string,
    rootCaCert: string,
    mqttBridgeCert: string,
    clientId: string,
    clientSecret: string,
    results: map<string, string>,
    errors: map<string, string>)

  const EMPTY_DRAFT := Draft("", "", "", "", "", map[], map[])

  function StageName(s: Stage): string {
    match s
    case SignCsr => "step_ca"
    case Rabbit => "rabbitmq"
    case BridgeCert => "mqtt_bridge_cert"
    case Federation => "keycloak_federation"
  }

  function Fail(d: Draft, s: Stage, msg: string): Draft {
    d.(errors := d.errors[StageName(s) := msg])
  }

  /**
   One stage of the pipeline. None is an exception the handler does not catch:
   signing catches only the step-ca error class, the other two stages catch everything.
   */
  function RunStage(d: Draft, s: Stage, tenant: string, o: Outcome): Option<Draft> {
    match s
    case SignCsr => (
      match o
      case Replied(cert, root, fetched) =>
        Some(d.(signedCert := cert,
                rootCaCert := if root != "" then root else fetched,
                results := d.results["step_ca" := "signed"]))
      case Refused(msg) => Some(Fail(d, s, msg))
      case Crashed(_) => None)
    case Rabbit => (
      match o
      case Replied(_, _, _) => Some(d.(results := d.results["rabbitmq" := "provisioned"]))
      case Refused(msg) => Some(Fail(d, s, msg))
      case Crashed(msg) => Some(Fail(d, s, msg)))
    case BridgeCert => (
      match o
      case Replied(cert, _, _) =>
        Some(d.(mqttBridgeCert := cert, results := d.results["mqtt_bridge_cert" := "signed"]))
      case Refused(msg) => Some(Fail(d, s, msg))
      case Crashed(_) => None)
    case Federation => (
      match o
      case Replied(secret, _, _) =>
        Some(d.(clientId := "cdm-federation-" + tenant,
                clientSecret := secret,
                results := d.results["keycloak_federation" := "client_created"]))
      case Refused(msg) => Some(Fail(d, s, msg))
      case Crashed(msg) => Some(Fail(d, s, msg)))
  }

  /** The bridge-certificate stage makes no call when the tenant sent no CSR for it. */
  function SkipBridgeCert(d: Draft): Draft {
    d.(results := d.results["mqtt_bridge_cert" := "skipped (no mqtt_bridge_csr provided)"])
  }

  function MqttUser(tenant: string): string { tenant + "-mqtt-bridge" }

  /** The answer of a handshake: what a stage did not bring is null. */
  datatype Handed = Handed(
    tenantId: string,
    signedCert: string,
    rootCaCert: string,
    rabbitmqUrl: string,
    rabbitmqVhost: string,
    rabbitmqUser: string,
    mqttBridgeCert: Option<string>,
    cdmIdpClientId: Option<string>,
    cdmIdpClientSecret: Option<string>,
    cdmDiscoveryUrl: string)

  function OrNull(s: string): Option<string> { if s == "" then None else Some(s) }

  function HandOver(tenant: string, b: Bundle): Handed {
    Handed(tenant, b.signedCert, b.rootCaCert, b.rabbitmqUrl, b.rabbitmqVhost, b.rabbitmqUser,
           OrNull(b.mqttBridgeCert), OrNull(b.cdmIdpClientId), OrNull(b.cdmIdpClientSecret), b.cdmDiscoveryUrl)
  }

  function FinishBundle(tenant: string, cfg: Settings, d: Draft): Bundle {
    Bundle(d.signedCert, d.rootCaCert, cfg.rabbitmqUrl, tenant, MqttUser(tenant),
           d.mqttBridgeCert, d.clientId, d.clientSecret, cfg.discoveryUrl)
  }
}
