/**
 The two callers of the allocator, the server config they append to, and the terminal proxy's
 resolver that reads the same peers file.
 */
module Provisioning {
  import opened Common
  import opened Ipv4
  import opened ServerConf
  import opened Text
  import opened WireGuard

  /** How one call to step-ca or hawkBit ends: answered, or with the exceptions the handlers tell apart. */
  datatype Remote<T> = Answered(value: T) | Unreachable | Failed | Raised

  /** What an answer carries besides the address: a certified enrolment, or what the webhook found. */
  datatype Note =
    | Certified(certificate: string, chain: string, config: string)
    | NewTarget
    | KnownTarget

  datatype Answer =
    | Assigned(device: string, ip: string, note: Note)
    | Ignored
    | Http(code: nat)

  /** What the config directory holds. */
  datatype Disk = Disk(peers: Peers, wg0: Option<string>)

  datatype Request =
    | Enroll(
        device: string,
        csrValid: bool,
        sign: Remote<(string, string)>,     // certificate and chain
        target: Remote<bool>,
        create: Remote<()>,
        pubkey: string,
        serverKey: string)                  // what get_server_pubkey reads
    | Webhook(meta: map<string, string>, target: Remote<bool>, create: Remote<()>)
    | ServerConfigAppears(text: string)  // the WireGuard container writes its wg0.conf
    | RestartApi
    | DeletePeer(device: string)     // an operator edits cdm_peers.json

  function ErrorCode<T>(r: Remote<T>): nat
    requires !r.Answered?
  {
    if r.Unreachable? then 503 else if r.Failed? then 502 else 500
  }

  /** Make sure the device has a hawkBit target; None when that worked. */
  function EnsureTarget(target: Remote<bool>, create: Remote<()>): Option<nat> {
    if !target.Answered? then Some(ErrorCode(target))
    else if target.value then None
    else if !create.Answered? then Some(ErrorCode(create))
    else None
  }

  /** The first of these metadata fields that is there and not empty. */
  function FirstOf(meta: map<string, string>, keys: seq<string>): Option<string> {
    if keys == [] then None
    else if keys[0] in meta && meta[keys[0]] != "" then Some(meta[keys[0]])
    else FirstOf(meta, keys[1..])
  }

  function DeviceOf(meta: map<string, string>): Option<string> { FirstOf(meta, ["deviceId", "clientId", "deviceName"]) }

  /** A metadata field that is there and not empty. */
  predicate Given(meta: map<string, string>, key: string) { key in meta && meta[key] != "" }

  /** The device id before the client id before the device name. */
  lemma DeviceMeans(meta: map<string, string>)
    ensures
      if Given(meta, "deviceId") then DeviceOf(meta) == Some(meta["deviceId"])
      else if Given(meta, "clientId") then DeviceOf(meta) == Some(meta["clientId"])
      else if Given(meta, "deviceName") then DeviceOf(meta) == Some(meta["deviceName"])
      else DeviceOf(meta) == None
  {
    var last, two := ["deviceName"], ["clientId", "deviceName"];
    assert last[1..] == [] && two[1..] == last && (["deviceId", "clientId", "deviceName"])[1..] == two;
    assert FirstOf(meta, last) == if Given(meta, "deviceName") then Some(meta["deviceName"]) else None;
    assert FirstOf(meta, two) == if Given(meta, "clientId") then Some(meta["clientId"]) else FirstOf(meta, last);
  }

  /** Which handler asks for an address, with what its answer and the server's configuration need. */
  datatype Caller =
    | Enrolment(certificate: string, chain: string, pubkey: string, serverKey: string)
    | Connection(known: bool)

  function KeyOf(c: Caller): string { if c.Enrolment? then c.pubkey else "" }

  function NoteFor(p: Plan, device: string, ip: string, c: Caller): Note
    requires ValidPlan(p)
  {
    match c
    case Enrolment(certificate, chain, _, serverKey) =>
      Certified(certificate, chain, ClientText(p, device, ip, serverKey))
    case Connection(known) => if known then KnownTarget else NewTarget
  }

  /** The answer and the files once the allocator has answered; with a public key a [Peer] block is appended. */
  function Finish(p: Plan, s: Disk, device: string, c: Caller, ip: Result<string, AllocError>, peers: Peers)
    : (Answer, Disk)
    requires ValidPlan(p)
  {
    match ip
    case Err(_) => (Http(500), s)
    case Ok(a) =>
      (Assigned(device, a, NoteFor(p, device, a, c)),
       Disk(peers, if KeyOf(c) == "" || s.wg0.None? then s.wg0 else Some(s.wg0.value + PeerBlock(device, KeyOf(c), a))))
  }

  ghost function Assign(p: Plan, s: Disk, device: string, c: Caller): (Answer, Disk)
    requires ValidPlan(p)
  {
    var (ip, peers) := Allocate(p, s.peers, device);
    Finish(p, s, device, c, ip, peers)
  }

  ghost function ServeEnroll(
      p: Plan, s: Disk, device: string, csrValid: bool, sign: Remote<(string, string)>, target: Remote<bool>,
      create: Remote<()>, pubkey: string, serverKey: string): (Answer, Disk)
    requires ValidPlan(p)
  {
    if !csrValid then (Http(422), s)
    else if !sign.Answered? then (Http(ErrorCode(sign)), s)
    else if EnsureTarget(target, create).Some? then (Http(EnsureTarget(target, create).value), s)
    else Assign(p, s, device, Enrolment(sign.value.0, sign.value.1, pubkey, serverKey))
  }

  ghost function ServeWebhook(p: Plan, s: Disk, meta: map<string, string>, target: Remote<bool>, create: Remote<()>)
    : (Answer, Disk)
    requires ValidPlan(p)
  {
    if DeviceOf(meta).None? then (Ignored, s)
    else if EnsureTarget(target, create).Some? then (Http(EnsureTarget(target, create).value), s)
    else Assign(p, s, DeviceOf(meta).value, Connection(target == Answered(true)))
  }

  ghost function Serve(p: Plan, s: Disk, req: Request): (Answer, Disk)
    requires ValidPlan(p)
  {
    match req
    case Enroll(device, csrValid, sign, target, create, pubkey, serverKey) =>
      ServeEnroll(p, s, device, csrValid, sign, target, create, pubkey, serverKey)
    case Webhook(meta, target, create) => ServeWebhook(p, s, meta, target, create)
    case ServerConfigAppears(text) => (Ignored, s.(wg0 := if s.wg0.None? then Some(text) else s.wg0))
    case RestartApi => (Ignored, s)
    case DeletePeer(device) => (Ignored, s.(peers := s.peers - {device}))
  }

  // ---------------------------------------------------------------- the handlers as written

  ghost function OnDisk(dir: ConfigDir): Disk
    reads dir
  {
    Disk(dir.Peers(), dir.wg0)
  }

  /** What the terminal proxy's resolver answers about these files. */
  function Resolved(s: Disk, device: string): Option<string> {
    if device in s.peers then Some(s.peers[device]) else None
  }

  /** terminal-proxy's createFileIpResolver().resolve: a missing file or key is null. */
  function Resolve(dir: ConfigDir, device: string): (r: Option<string>)
    reads dir
    ensures r == Resolved(OnDisk(dir), device)
  {
    if dir.peersDb.None? then None
    else if device in dir.peersDb.value then Some(dir.peersDb.value[device])
    else None
  }

  /** The end of enrolment; an allocator error reaches the client as 500. */
  method AssignAddress(wg: WireGuardConfig, device: string, certificate: string, chain: string, pubkey: string,
                       serverKey: string)
    returns (r: Answer)
    requires ValidPlan(wg.plan)
    modifies wg.dir
    ensures (r, OnDisk(wg.dir))
         == Assign(wg.plan, old(OnDisk(wg.dir)), device, Enrolment(certificate, chain, pubkey, serverKey))
    ensures r.Assigned? ==>
      && r.device == device && Resolve(wg.dir, device) == Some(r.ip)
      && r.note.Certified? && r.note.certificate == certificate && r.note.chain == chain
      && (Free(device, NL) && Free(r.ip, NL) && Free(serverKey, NL) && Free(wg.plan.endpoint, NL) ==>
            DescribesClient(r.note.config, device, r.ip, Print(wg.plan.server), serverKey, wg.plan.endpoint,
                            Print(wg.plan.net.base) + "/" + PrintOctet(wg.plan.net.prefix)))
    ensures r.Assigned? ==>
      wg.dir.wg0 == if pubkey == "" || old(wg.dir.wg0).None? then old(wg.dir.wg0)
                    else Some(old(wg.dir.wg0).value + PeerBlock(device, pubkey, r.ip))
    ensures !r.Assigned? ==>
      r == Http(500) && OnDisk(wg.dir) == old(OnDisk(wg.dir)) && Allocate(wg.plan, old(wg.dir.Peers()), device).0.Err?
  {
    ghost var s := OnDisk(wg.dir);
    var ip := wg.AllocateIp(device);
    ghost var peers := wg.dir.Peers();
    if ip.Err? {
      r := Http(500);
    } else {
      var config := wg.GenerateClientConfig(device, ip.value, pubkey, serverKey);
      r := Assigned(device, ip.value, Certified(certificate, chain, config));
    }
    assert (r, OnDisk(wg.dir))
        == Finish(wg.plan, s, device, Enrolment(certificate, chain, pubkey, serverKey), ip, peers);
  }

  /**
   Each error answer under its condition and without effect. On success the answer carries the signed
   certificate and chain, an address the resolver reads, and a client text that reads back.
   */
  method EnrollDevice(
      wg: WireGuardConfig, device: string, csrValid: bool, sign: Remote<(string, string)>, target: Remote<bool>,
      create: Remote<()>, pubkey: string, serverKey: string)
    returns (r: Answer)
    requires ValidPlan(wg.plan)
    modifies wg.dir
    ensures (r, OnDisk(wg.dir))
         == ServeEnroll(wg.plan, old(OnDisk(wg.dir)), device, csrValid, sign, target, create, pubkey, serverKey)
    ensures r.Assigned? ==>
      && r.device == device && Resolve(wg.dir, device) == Some(r.ip)
      && sign.Answered? && r.note == Certified(sign.value.0, sign.value.1, r.note.config)
      && (Free(device, NL) && Free(r.ip, NL) && Free(serverKey, NL) && Free(wg.plan.endpoint, NL) ==>
            DescribesClient(r.note.config, device, r.ip, Print(wg.plan.server), serverKey, wg.plan.endpoint,
                            Print(wg.plan.net.base) + "/" + PrintOctet(wg.plan.net.prefix)))
    ensures r.Assigned? ==>
      wg.dir.wg0 == if pubkey == "" || old(wg.dir.wg0).None? then old(wg.dir.wg0)
                    else Some(old(wg.dir.wg0).value + PeerBlock(device, pubkey, r.ip))
    ensures !r.Assigned? ==> OnDisk(wg.dir) == old(OnDisk(wg.dir))
    ensures !csrValid ==> r == Http(422)
    ensures csrValid && !sign.Answered? ==>
      r == Http(if sign.Unreachable? then 503 else if sign.Failed? then 502 else 500)
    ensures csrValid && sign.Answered? && !target.Answered? ==>
      r == Http(if target.Unreachable? then 503 else if target.Failed? then 502 else 500)
    ensures csrValid && sign.Answered? && target == Answered(false) && !create.Answered? ==>
      r == Http(if create.Unreachable? then 503 else if create.Failed? then 502 else 500)
    ensures csrValid && sign.Answered? && (target == Answered(true) || (target == Answered(false) && create.Answered?))
      ==> r.Assigned? || (r == Http(500) && Allocate(wg.plan, old(wg.dir.Peers()), device).0.Err?)
  {
    if !csrValid {
      return Http(422);
    }
    if sign.Unreachable? {
      return Http(503);
    }
    if sign.Failed? {
      return Http(502);
    }
    if sign.Raised? {
      return Http(500);
    }
    var problem := CreateTargetIfAbsent(target, create);
    if problem.Some? {
      return Http(problem.value);
    }
    r := AssignAddress(wg, device, sign.value.0, sign.value.1, pubkey, serverKey);
  }

  /** None iff there is a target in the end; otherwise the code tells how the first call without an answer failed. */
  method CreateTargetIfAbsent(target: Remote<bool>, create: Remote<()>) returns (problem: Option<nat>)
    ensures problem == None <==> target == Answered(true) || (target == Answered(false) && create.Answered?)
    ensures problem == Some(503) <==> target.Unreachable? || (target == Answered(false) && create.Unreachable?)
    ensures problem == Some(502) <==> target.Failed? || (target == Answered(false) && create.Failed?)
    ensures problem == Some(500) <==> target.Raised? || (target == Answered(false) && create.Raised?)
    ensures problem.Some? ==> problem.value in {500, 502, 503}
  {
    match target {
      case Unreachable => return Some(503);
      case Failed => return Some(502);
      case Raised => return Some(500);
      case Answered(existing) =>
        if !existing {
          match create {
            case Unreachable => return Some(503);
            case Failed => return Some(502);
            case Raised => return Some(500);
            case Answered(_) =>
          }
        }
        return None;
    }
  }

  method ThingsboardWebhook(wg: WireGuardConfig, meta: map<string, string>, target: Remote<bool>, create: Remote<()>)
    returns (r: Answer)
    requires ValidPlan(wg.plan)
    modifies wg.dir
    ensures (r, OnDisk(wg.dir)) == ServeWebhook(wg.plan, old(OnDisk(wg.dir)), meta, target, create)
    ensures r.Assigned? ==>
      && DeviceOf(meta) == Some(r.device) && Resolve(wg.dir, r.device) == Some(r.ip)
      && r.note == if target == Answered(true) then KnownTarget else NewTarget
    ensures r == Ignored <==> DeviceOf(meta).None?
    ensures !r.Assigned? ==> OnDisk(wg.dir) == old(OnDisk(wg.dir))
    ensures DeviceOf(meta).Some? && !target.Answered? ==>
      r == Http(if target.Unreachable? then 503 else if target.Failed? then 502 else 500)
    ensures DeviceOf(meta).Some? && target == Answered(false) && !create.Answered? ==>
      r == Http(if create.Unreachable? then 503 else if create.Failed? then 502 else 500)
    ensures DeviceOf(meta).Some? && (target == Answered(true) || (target == Answered(false) && create.Answered?)) ==>
      && wg.dir.wg0 == old(wg.dir.wg0)
      && (r.Assigned? || (r == Http(500) && Allocate(wg.plan, old(wg.dir.Peers()), DeviceOf(meta).value).0.Err?))
  {
    var device := ExtractDeviceId(meta);
    if device.None? {
      return Ignored;
    }
    var problem := CreateTargetIfAbsent(target, create);
    if problem.Some? {
      return Http(problem.value);
    }
    ghost var s := OnDisk(wg.dir);
    var ip := wg.AllocateIp(device.value);
    if ip.Err? {
      r := Http(500);
    } else if target.value {
      r := Assigned(device.value, ip.value, KnownTarget);
    } else {
      r := Assigned(device.value, ip.value, NewTarget);
    }
    assert (r, OnDisk(wg.dir))
        == Finish(wg.plan, s, device.value, Connection(target == Answered(true)), ip, wg.dir.Peers());
  }

  method ExtractDeviceId(meta: map<string, string>) returns (r: Option<string>)
    ensures r == DeviceOf(meta)
    ensures
      if Given(meta, "deviceId") then r == Some(meta["deviceId"])
      else if Given(meta, "clientId") then r == Some(meta["clientId"])
      else if Given(meta, "deviceName") then r == Some(meta["deviceName"])
      else r == None
  {
    DeviceMeans(meta);
    var keys := ["deviceId", "clientId", "deviceName"];
    var i := 0;
    while i < |keys|
      invariant 0 <= i <= |keys|
      invariant FirstOf(meta, keys[i..]) == FirstOf(meta, keys)
    {
      if keys[i] in meta && meta[keys[i]] != "" {
        return Some(meta[keys[i]]);
      }
      assert keys[i..][1..] == keys[i + 1..];
      i := i + 1;
    }
    r := None;
  }

  // ---------------------------------------------------------------- whole runs

  ghost function AfterAll(p: Plan, s: Disk, reqs: seq<Request>): Disk
    requires ValidPlan(p)
  {
    if reqs == [] then s else Serve(p, AfterAll(p, s, reqs[..|reqs| - 1]), reqs[|reqs| - 1]).1
  }

  /** The addresses that successful calls of a run returned for a device. */
  ghost function Granted(p: Plan, s: Disk, reqs: seq<Request>, device: string): set<string>
    requires ValidPlan(p)
  {
    if reqs == [] then {}
    else
      var answer := Serve(p, AfterAll(p, s, reqs[..|reqs| - 1]), reqs[|reqs| - 1]).0;
      Granted(p, s, reqs[..|reqs| - 1], device)
      + if answer.Assigned? && answer.device == device then {answer.ip} else {}
  }

  predicate NoDeletions(reqs: seq<Request>) { forall i :: 0 <= i < |reqs| ==> !reqs[i].DeletePeer? }

  /** What a request other than a deletion does to the peers file, whatever texts it carries. */
  ghost predicate PeersKept(p: Plan, s: Disk, answer: Answer, s': Disk)
    requires ValidPlan(p)
  {
    && Sound(p, s'.peers)
    && (forall d :: d in s.peers ==> d in s'.peers && s'.peers[d] == s.peers[d])
    && (answer.Assigned? ==> s'.peers.Keys == s.peers.Keys + {answer.device} && s'.peers[answer.device] == answer.ip)
    && (!answer.Assigned? ==> s'.peers == s.peers)
  }

  lemma AssignPeers(p: Plan, s: Disk, device: string, c: Caller)
    requires ValidPlan(p) && Sound(p, s.peers)
    ensures PeersKept(p, s, Assign(p, s, device, c).0, Assign(p, s, device, c).1)
    ensures Assign(p, s, device, c).0.Assigned? ==> Assign(p, s, device, c).0.device == device
  {
    AllocateSound(p, s.peers, device);
  }

  lemma EnrollPeers(p: Plan, s: Disk, req: Request)
    requires ValidPlan(p) && Sound(p, s.peers) && req.Enroll?
    ensures PeersKept(p, s, Serve(p, s, req).0, Serve(p, s, req).1)
  {
    hide Assign, Sound;
    if req.sign.Answered? {
      AssignPeers(p, s, req.device, Enrolment(req.sign.value.0, req.sign.value.1, req.pubkey, req.serverKey));
    }
  }

  lemma ServePeers(p: Plan, s: Disk, req: Request)
    requires ValidPlan(p) && Sound(p, s.peers) && !req.DeletePeer?
    ensures PeersKept(p, s, Serve(p, s, req).0, Serve(p, s, req).1)
  {
    if req.Enroll? {
      EnrollPeers(p, s, req);
    } else if req.Webhook? && DeviceOf(req.meta).Some? {
      AssignPeers(p, s, DeviceOf(req.meta).value, Connection(req.target == Answered(true)));
    }
  }

  lemma {:induction false} RunPeers(p: Plan, s: Disk, reqs: seq<Request>)
    requires ValidPlan(p) && Sound(p, s.peers) && NoDeletions(reqs)
    ensures Sound(p, AfterAll(p, s, reqs).peers)
  {
    if reqs != [] {
      RunPeers(p, s, reqs[..|reqs| - 1]);
      ServePeers(p, AfterAll(p, s, reqs[..|reqs| - 1]), reqs[|reqs| - 1]);
    }
  }

  /**
   Two-service agreement: after any run, what the resolver reads for a device is the one address
   every successful call returned for it, and it reads nothing iff no call succeeded for it.
   */
  lemma {:induction false} ResolverAgrees(p: Plan, s: Disk, reqs: seq<Request>, device: string)
    requires ValidPlan(p) && Sound(p, s.peers) && NoDeletions(reqs) && device !in s.peers
    ensures Granted(p, s, reqs, device)
         == match Resolved(AfterAll(p, s, reqs), device) { case Some(ip) => {ip} case None => {} }
  {
    if reqs != [] {
      var init, last := reqs[..|reqs| - 1], reqs[|reqs| - 1];
      RunPeers(p, s, init);
      ResolverAgrees(p, s, init, device);
      ServePeers(p, AfterAll(p, s, init), last);
    }
  }
}
