/**
 Who claims which address in the text of wg0.conf, over whole runs: exactly when two [Peer]
 sections of different devices can end up with the same AllowedIPs.
 */
module PeerConflicts {
  import opened Common
  import opened Ipv4
  import opened Provisioning
  import opened ServerConf
  import opened Text
  import opened WireGuard

  /** No value that goes into wg0.conf holds a line break. The handlers check neither. */
  predicate OneLine(req: Request) {
    req.Enroll? ==> Free(req.device, NL) && Free(req.pubkey, NL)
  }

  predicate OneLineRun(reqs: seq<Request>) {
    NoDeletions(reqs) && forall i :: 0 <= i < |reqs| ==> OneLine(reqs[i])
  }

  /** Two [Peer] sections of different owners with the same AllowedIPs in the server's configuration. */
  ghost predicate Conflict(s: Disk) {
    s.wg0.Some? && ClaimsConflict(s.wg0.value)
  }

  // ---------------------------------------------------------------- what makes a conflict possible

  /** The addresses devices can get. */
  ghost function Assignable(p: Plan): set<Address>
    requires ValidPlan(p)
  {
    SeqSet(Hosts(p.net)) - {p.server}
  }

  predicate Holds(s: Disk, device: string, h: Address) { device in s.peers && s.peers[device] == Print(h) }

  /** A claim of an address that a device can still get, or that another device has and may claim too. */
  ghost predicate Threat(p: Plan, s: Disk, owner: Option<string>, h: Address)
    requires ValidPlan(p)
  {
    && s.wg0.Some? && h in Assignable(p) && Claims(s.wg0.value, owner, Print(h) + "/32")
    && ((forall d :: !Holds(s, d, h)) || exists d :: Holds(s, d, h) && Free(d, NL) && owner != Some(d))
  }

  ghost predicate Endangered(p: Plan, s: Disk)
    requires ValidPlan(p)
  {
    Conflict(s) || exists owner, h :: Threat(p, s, owner, h)
  }

  /** Recorded addresses are the texts of assignable ones. */
  lemma RecordedHost(p: Plan, peers: Peers, device: string) returns (h: Address)
    requires ValidPlan(p) && Sound(p, peers) && device in peers
    ensures peers[device] == Print(h) && h in Assignable(p) && Decoded(peers)[device] == h
    ensures Free(peers[device], NL)
  {
    h := Parse(peers[device]).value;
    assert Decoded(peers)[device] in Decoded(peers).Values;
    PrintParse(peers[device]);
    PrintFree(h);
  }

  lemma PrintInjective(a: Address, b: Address)
    ensures Print(a) == Print(b) ==> a == b
    ensures Print(a) + "/32" == Print(b) + "/32" ==> a == b
  {
    ParsePrint(a);
    ParsePrint(b);
    assert (Print(a) + "/32")[..|Print(a) + "/32"| - 3] == Print(a);
    assert (Print(b) + "/32")[..|Print(b) + "/32"| - 3] == Print(b);
  }

  /** An address nobody holds is free for the allocator. */
  lemma UnheldIsFree(p: Plan, s: Disk, h: Address)
    requires ValidPlan(p) && Sound(p, s.peers) && h in Assignable(p) && forall d :: !Holds(s, d, h)
    ensures h in SeqSet(Hosts(p.net)) - InUse(s.peers, p.server)
  {
    forall d | d in s.peers ensures Decoded(s.peers)[d] != h {
      var g := RecordedHost(p, s.peers, d);
      assert !Holds(s, d, h);
    }
  }

  // ---------------------------------------------------------------- a calm state stays calm

  /** What one address for a device does to the claims. */
  lemma AssignClaims(p: Plan, s: Disk, device: string, c: Caller, owner: Option<string>, allowed: string)
    requires ValidPlan(p) && Sound(p, s.peers) && s.wg0.Some?
    requires KeyOf(c) != "" ==> Free(device, NL) && Free(KeyOf(c), NL)
    requires Assign(p, s, device, c).0.Assigned?
    ensures var (answer, s') := Assign(p, s, device, c);
            && s'.wg0.Some?
            && (Claims(s'.wg0.value, owner, allowed) ==>
                  Claims(s.wg0.value, owner, allowed)
                  || (KeyOf(c) != "" && owner == Some(device) && allowed == answer.ip + "/32"))
  {
    var (answer, s') := Assign(p, s, device, c);
    AssignPeers(p, s, device, c);
    if KeyOf(c) != "" {
      var h := RecordedHost(p, s'.peers, device);
      ClaimsAppend(s.wg0.value, device, KeyOf(c), answer.ip, owner, allowed);
    }
  }

  /** In a calm state what is claimed of a device's address is claimed by that device, or the device cannot claim it. */
  lemma CalmClaim(p: Plan, s: Disk, owner: Option<string>, h: Address, device: string)
    requires ValidPlan(p) && !Endangered(p, s) && s.wg0.Some? && h in Assignable(p)
    requires Claims(s.wg0.value, owner, Print(h) + "/32")
    ensures exists d :: Holds(s, d, h)
    ensures Holds(s, device, h) && Free(device, NL) ==> owner == Some(device)
  {
    assert !Threat(p, s, owner, h);
  }

  /** Whoever holds an address after an assignment held it before, if anybody did. */
  lemma SameHolder(p: Plan, s: Disk, s': Disk, d: string, e: string, h: Address)
    requires ValidPlan(p) && Sound(p, s.peers) && Sound(p, s'.peers)
    requires forall x :: x in s.peers ==> x in s'.peers && s'.peers[x] == s.peers[x]
    requires Holds(s, d, h) && Holds(s', e, h)
    ensures d == e
  {
    SoundText(p, s'.peers, d, e);
  }

  lemma AssignNoConflict(p: Plan, s: Disk, device: string, c: Caller)
    requires ValidPlan(p) && Sound(p, s.peers) && s.wg0.Some? && !Endangered(p, s)
    requires KeyOf(c) != "" ==> Free(device, NL) && Free(KeyOf(c), NL)
    requires Assign(p, s, device, c).0.Assigned?
    ensures !Conflict(Assign(p, s, device, c).1)
  {
    hide Assign, Sound;
    var (answer, s') := Assign(p, s, device, c);
    AssignPeers(p, s, device, c);
    AssignClaims(p, s, device, c, None, "");
    var h := RecordedHost(p, s'.peers, device);
    forall allowed, a, b | Claimed(s'.wg0.value, allowed, a, b) ensures a == b {
      AssignClaims(p, s, device, c, a, allowed);
      AssignClaims(p, s, device, c, b, allowed);
      if Claims(s.wg0.value, a, allowed) && Claims(s.wg0.value, b, allowed) {
        assert Claimed(s.wg0.value, allowed, a, b);
      } else if Claims(s.wg0.value, a, allowed) {
        OldClaimIsDevices(p, s, s', device, a, h);
      } else if Claims(s.wg0.value, b, allowed) {
        OldClaimIsDevices(p, s, s', device, b, h);
      }
    }
  }

  /** An old claim of the address a one-line device has now is that device's own. */
  lemma OldClaimIsDevices(p: Plan, s: Disk, s': Disk, device: string, owner: Option<string>, h: Address)
    requires ValidPlan(p) && Sound(p, s.peers) && Sound(p, s'.peers) && s.wg0.Some? && !Endangered(p, s)
    requires forall x :: x in s.peers ==> x in s'.peers && s'.peers[x] == s.peers[x]
    requires Holds(s', device, h) && Free(device, NL) && h in Assignable(p)
    requires Claims(s.wg0.value, owner, Print(h) + "/32")
    ensures owner == Some(device)
  {
    CalmClaim(p, s, owner, h, device);
    var d :| Holds(s, d, h);
    SameHolder(p, s, s', d, device, h);
  }

  lemma AssignNoThreat(p: Plan, s: Disk, device: string, c: Caller, owner: Option<string>, h: Address)
    requires ValidPlan(p) && Sound(p, s.peers) && s.wg0.Some? && !Endangered(p, s)
    requires KeyOf(c) != "" ==> Free(device, NL) && Free(KeyOf(c), NL)
    requires Assign(p, s, device, c).0.Assigned?
    ensures !Threat(p, Assign(p, s, device, c).1, owner, h)
  {
    hide Assign, Sound;
    var (answer, s') := Assign(p, s, device, c);
    AssignPeers(p, s, device, c);
    var allowed := Print(h) + "/32";
    AssignClaims(p, s, device, c, owner, allowed);
    if s'.wg0.Some? && h in Assignable(p) && Claims(s'.wg0.value, owner, allowed) {
      var g := RecordedHost(p, s'.peers, device);
      if Claims(s.wg0.value, owner, allowed) {
        assert !Threat(p, s, owner, h);
        var d :| Holds(s, d, h);
        assert Holds(s', d, h);
        forall e | Holds(s', e, h) ensures e == d {
          SameHolder(p, s, s', d, e, h);
        }
      } else {
        PrintInjective(g, h);
        assert Holds(s', device, h);
        forall e | Holds(s', e, h) ensures e == device {
          SoundText(p, s'.peers, e, device);
        }
      }
    }
  }

  lemma AssignCalm(p: Plan, s: Disk, device: string, c: Caller)
    requires ValidPlan(p) && Sound(p, s.peers) && s.wg0.Some? && !Endangered(p, s)
    requires KeyOf(c) != "" ==> Free(device, NL) && Free(KeyOf(c), NL)
    requires Assign(p, s, device, c).0.Assigned?
    ensures !Endangered(p, Assign(p, s, device, c).1)
  {
    hide Assign, Sound;
    AssignNoConflict(p, s, device, c);
    forall owner, h ensures !Threat(p, Assign(p, s, device, c).1, owner, h) {
      AssignNoThreat(p, s, device, c, owner, h);
    }
  }

  lemma ServeCalm(p: Plan, s: Disk, req: Request)
    requires ValidPlan(p) && Sound(p, s.peers) && s.wg0.Some? && !Endangered(p, s)
    requires !req.DeletePeer? && OneLine(req)
    ensures Serve(p, s, req).1.wg0.Some? && !Endangered(p, Serve(p, s, req).1)
  {
    hide Assign, Sound, Endangered;
    match req
    case Enroll(device, csrValid, sign, target, create, pubkey, serverKey) =>
      if csrValid && sign.Answered? && EnsureTarget(target, create).None? {
        ServedCalm(p, s, device, Enrolment(sign.value.0, sign.value.1, pubkey, serverKey));
      }
    case Webhook(meta, target, create) =>
      if DeviceOf(meta).Some? && EnsureTarget(target, create).None? {
        ServedCalm(p, s, DeviceOf(meta).value, Connection(target == Answered(true)));
      }
    case _ =>
  }

  lemma ServedCalm(p: Plan, s: Disk, device: string, c: Caller)
    requires ValidPlan(p) && Sound(p, s.peers) && s.wg0.Some? && !Endangered(p, s)
    requires KeyOf(c) != "" ==> Free(device, NL) && Free(KeyOf(c), NL)
    ensures Assign(p, s, device, c).1.wg0.Some? && !Endangered(p, Assign(p, s, device, c).1)
  {
    hide Sound, Endangered;
    if Assign(p, s, device, c).0.Assigned? {
      AssignCalm(p, s, device, c);
    }
  }

  lemma {:induction false} RunCalm(p: Plan, s: Disk, reqs: seq<Request>)
    requires ValidPlan(p) && Sound(p, s.peers) && s.wg0.Some? && !Endangered(p, s) && OneLineRun(reqs)
    ensures AfterAll(p, s, reqs).wg0.Some? && !Endangered(p, AfterAll(p, s, reqs))
  {
    hide Sound, Endangered, Serve;
    if reqs != [] {
      var init := reqs[..|reqs| - 1];
      RunCalm(p, s, init);
      RunPeers(p, s, init);
      ServeCalm(p, AfterAll(p, s, init), reqs[|reqs| - 1]);
    }
  }

  // ---------------------------------------------------------------- enrolments that bring about a claim

  function EnrollWith(device: string, pubkey: string): Request {
    Enroll(device, true, Answered(("certificate", "chain")), Answered(true), Answered(()), pubkey, "server")
  }

  /** The files after one successful enrolment with this address. */
  ghost function Enrolled(s: Disk, x: string, pubkey: string, ip: string): Disk
    requires s.wg0.Some?
  {
    Disk(s.peers[x := ip], Some(s.wg0.value + PeerBlock(x, pubkey, ip)))
  }

  lemma EnrolEffect(p: Plan, s: Disk, x: string, pubkey: string)
    requires ValidPlan(p) && s.wg0.Some? && pubkey != "" && Allocate(p, s.peers, x).0.Ok?
    ensures AfterAll(p, s, [EnrollWith(x, pubkey)]) == Serve(p, s, EnrollWith(x, pubkey)).1
    ensures Serve(p, s, EnrollWith(x, pubkey)).1
         == Disk(Allocate(p, s.peers, x).1, Some(s.wg0.value + PeerBlock(x, pubkey, Allocate(p, s.peers, x).0.value)))
  {
    var one := [EnrollWith(x, pubkey)];
    assert one[..0] == [] && AfterAll(p, s, one[..0]) == s;
  }

  /** Enrolling a recorded device again appends one more block for its address. */
  lemma EnrolKnown(p: Plan, s: Disk, x: string)
    requires ValidPlan(p) && s.wg0.Some? && x in s.peers
    ensures AfterAll(p, s, [EnrollWith(x, "key")]) == Enrolled(s, x, "key", s.peers[x])
  {
    EnrolEffect(p, s, x, "key");
    assert s.peers[x := s.peers[x]] == s.peers;
  }

  /** Enrolling one new device while there is a free address takes one of those. */
  lemma EnrolNew(p: Plan, s: Disk, x: string) returns (a: Address)
    requires ValidPlan(p) && Sound(p, s.peers) && s.wg0.Some? && x !in s.peers
    requires SeqSet(Hosts(p.net)) - InUse(s.peers, p.server) != {}
    ensures a in SeqSet(Hosts(p.net)) - InUse(s.peers, p.server)
    ensures Allocate(p, s.peers, x).0 == Ok(Print(a))
    ensures AfterAll(p, s, [EnrollWith(x, "key")]) == Enrolled(s, x, "key", Print(a))
  {
    var used := InUse(s.peers, p.server);
    FirstFreeMeans(Hosts(p.net), used);
    FreeHost(Hosts(p.net), used);
    a := FirstFree(Hosts(p.net), used).value;
    EnrolEffect(p, s, x, "key");
  }

  /** What is free afterwards. */
  lemma EnrolledUse(p: Plan, s: Disk, x: string, a: Address)
    requires ValidPlan(p) && Sound(p, s.peers) && s.wg0.Some? && x !in s.peers
    requires a in SeqSet(Hosts(p.net)) - InUse(s.peers, p.server)
    ensures Sound(p, Enrolled(s, x, "key", Print(a)).peers)
    ensures InUse(Enrolled(s, x, "key", Print(a)).peers, p.server) == InUse(s.peers, p.server) + {a}
  {
    DecodedAdd(s.peers, x, a);
    InjectiveAdd(Decoded(s.peers), x, a);
  }

  lemma FewerFree(hosts: set<Address>, used: set<Address>, a: Address)
    requires a in hosts - used
    ensures |hosts - (used + {a})| < |hosts - used|
  {
    assert hosts - (used + {a}) == hosts - used - {a};
  }

  ghost predicate ClaimsGrow(s: Disk, s': Disk) {
    && s.wg0.Some? && s'.wg0.Some?
    && forall owner, allowed :: Claims(s.wg0.value, owner, allowed) ==> Claims(s'.wg0.value, owner, allowed)
  }

  lemma EnrolledClaims(s: Disk, x: string, ip: string)
    requires s.wg0.Some? && Free(x, NL) && Free(ip, NL)
    ensures ClaimsGrow(s, Enrolled(s, x, "key", ip))
    ensures Claims(Enrolled(s, x, "key", ip).wg0.value, Some(x), ip + "/32")
  {
    ClaimsAppend(s.wg0.value, x, "key", ip, Some(x), ip + "/32");
    forall owner, allowed | Claims(s.wg0.value, owner, allowed)
      ensures Claims(Enrolled(s, x, "key", ip).wg0.value, owner, allowed) {
      ClaimsKept(s.wg0.value, x, "key", ip, owner, allowed);
    }
  }

  lemma {:induction false} AfterAppend(p: Plan, s: Disk, a: seq<Request>, b: seq<Request>)
    requires ValidPlan(p)
    ensures AfterAll(p, s, a + b) == AfterAll(p, AfterAll(p, s, a), b)
    decreases |b|
  {
    if b == [] {
      assert a + b == a;
    } else {
      assert (a + b)[..|a + b| - 1] == a + b[..|b| - 1];
      AfterAppend(p, s, a, b[..|b| - 1]);
    }
  }

  /** A name that is not in the file yet. */
  lemma FreshName(peers: Peers, other: string) returns (name: string)
    ensures name !in peers && name != other && Free(name, NL)
  {
    var longest := |other|;
    var left := peers.Keys;
    while left != {}
      invariant left <= peers.Keys && longest >= |other|
      invariant forall d :: d in peers && d !in left ==> |d| <= longest
    {
      var d :| d in left;
      longest := if |d| > longest then |d| else longest;
      left := left - {d};
    }
    name := seq(longest + 1, i => 'd');
  }

  /** A one-line run without deletions after which x claims h, and old claims still stand. */
  ghost predicate Reaches(p: Plan, s: Disk, h: Address, reqs: seq<Request>, x: string)
    requires ValidPlan(p)
  {
    && OneLineRun(reqs) && ClaimsGrow(s, AfterAll(p, s, reqs))
    && Claims(AfterAll(p, s, reqs).wg0.value, Some(x), Print(h) + "/32")
  }

  lemma ReachedLater(p: Plan, s: Disk, y: string, ip: string, h: Address, rest: seq<Request>, x: string)
    requires ValidPlan(p) && s.wg0.Some? && Free(y, NL) && Free(ip, NL)
    requires AfterAll(p, s, [EnrollWith(y, "key")]) == Enrolled(s, y, "key", ip)
    requires Reaches(p, Enrolled(s, y, "key", ip), h, rest, x)
    ensures Reaches(p, s, h, [EnrollWith(y, "key")] + rest, x)
  {
    hide AfterAll, Claims;
    AfterAppend(p, s, [EnrollWith(y, "key")], rest);
    EnrolledClaims(s, y, ip);
  }

  /** Enrolling new devices long enough hands out any given free address. */
  lemma {:induction false} FreeAddressIsReached(p: Plan, s: Disk, h: Address, former: string)
      returns (reqs: seq<Request>, x: string)
    requires ValidPlan(p) && Sound(p, s.peers) && s.wg0.Some?
    requires h in SeqSet(Hosts(p.net)) - InUse(s.peers, p.server)
    ensures Reaches(p, s, h, reqs, x) && x != former
    decreases |SeqSet(Hosts(p.net)) - InUse(s.peers, p.server)|
  {
    var y := FreshName(s.peers, former);
    var a := EnrolNew(p, s, y);
    PrintFree(a);
    if a == h {
      reqs, x := [EnrollWith(y, "key")], y;
      EnrolledClaims(s, y, Print(h));
    } else {
      EnrolledUse(p, s, y, a);
      FewerFree(SeqSet(Hosts(p.net)), InUse(s.peers, p.server), a);
      var rest;
      rest, x := FreeAddressIsReached(p, Enrolled(s, y, "key", Print(a)), h, former);
      reqs := [EnrollWith(y, "key")] + rest;
      ReachedLater(p, s, y, Print(a), h, rest, x);
    }
  }

  // ---------------------------------------------------------------- exactly when

  ghost predicate ConflictAfter(p: Plan, s: Disk, reqs: seq<Request>)
    requires ValidPlan(p)
  {
    OneLineRun(reqs) && Conflict(AfterAll(p, s, reqs))
  }

  lemma ThreatConflicts(p: Plan, s: Disk, owner: Option<string>, h: Address) returns (reqs: seq<Request>)
    requires ValidPlan(p) && Sound(p, s.peers) && Threat(p, s, owner, h)
    ensures ConflictAfter(p, s, reqs)
  {
    hide AfterAll, Claims, Sound;
    var x;
    if forall d :: !Holds(s, d, h) {
      UnheldIsFree(p, s, h);
      reqs, x := FreeAddressIsReached(p, s, h, if owner.Some? then owner.value else "");
    } else {
      x :| Holds(s, x, h) && Free(x, NL) && owner != Some(x);
      reqs := [EnrollWith(x, "key")];
      KnownReaches(p, s, h, x);
    }
    assert Claimed(AfterAll(p, s, reqs).wg0.value, Print(h) + "/32", owner, Some(x));
  }

  lemma KnownReaches(p: Plan, s: Disk, h: Address, x: string)
    requires ValidPlan(p) && s.wg0.Some? && Holds(s, x, h) && Free(x, NL)
    ensures Reaches(p, s, h, [EnrollWith(x, "key")], x)
  {
    hide AfterAll;
    PrintFree(h);
    EnrolKnown(p, s, x);
    EnrolledClaims(s, x, Print(h));
  }

  /**
   From any state with a server configuration, a run without deletions and line breaks can end with
   two devices on one address iff the configuration already has such a pair, or claims an address
   that a device can still get, or one of a device other than the claiming one.
   */
  lemma ConflictReachableIff(p: Plan, s: Disk)
    requires ValidPlan(p) && Sound(p, s.peers) && s.wg0.Some?
    ensures (exists reqs :: ConflictAfter(p, s, reqs)) <==> Endangered(p, s)
  {
    if Endangered(p, s) {
      if Conflict(s) {
        assert ConflictAfter(p, s, []);
      } else {
        var owner, h :| Threat(p, s, owner, h);
        var reqs := ThreatConflicts(p, s, owner, h);
        assert ConflictAfter(p, s, reqs);
      }
    } else {
      forall reqs ensures !ConflictAfter(p, s, reqs) {
        if OneLineRun(reqs) {
          RunCalm(p, s, reqs);
        }
      }
    }
  }

  /** A text that makes no pair of its own and claims no address a device can get. */
  ghost predicate SafeText(p: Plan, t: string)
    requires ValidPlan(p)
  {
    !ClaimsConflict(t) && forall owner, h :: h in Assignable(p) ==> !Claims(t, owner, Print(h) + "/32")
  }

  /** The text the container left before anything was appended, if it wrote one in the run. */
  function StartText(wg0: Option<string>, reqs: seq<Request>): Option<string> {
    if reqs == [] then wg0
    else
      var before, last := StartText(wg0, reqs[..|reqs| - 1]), reqs[|reqs| - 1];
      if before.None? && last.ServerConfigAppears? then Some(last.text) else before
  }

  lemma StillNoConfig(p: Plan, s: Disk, req: Request)
    requires ValidPlan(p) && s.wg0.None? && !req.ServerConfigAppears?
    ensures Serve(p, s, req).1.wg0.None?
  {
  }

  lemma {:induction false} StartCalm(p: Plan, wg0: Option<string>, reqs: seq<Request>)
    requires ValidPlan(p) && OneLineRun(reqs)
    requires StartText(wg0, reqs).Some? ==> SafeText(p, StartText(wg0, reqs).value)
    ensures var s := AfterAll(p, Disk(map[], wg0), reqs);
            (s.wg0.Some? <==> StartText(wg0, reqs).Some?) && !Endangered(p, s)
  {
    hide Serve;
    if reqs != [] {
      var init, last := reqs[..|reqs| - 1], reqs[|reqs| - 1];
      var s := AfterAll(p, Disk(map[], wg0), init);
      StartCalm(p, wg0, init);
      StartSound(p, wg0, init);
      if s.wg0.Some? {
        ServeCalm(p, s, last);
      } else if last.ServerConfigAppears? {
        ConfigWritten(p, s, last.text);
      } else {
        StillNoConfig(p, s, last);
      }
    }
  }

  lemma ConfigWritten(p: Plan, s: Disk, text: string)
    requires ValidPlan(p) && s.wg0.None? && SafeText(p, text)
    ensures Serve(p, s, ServerConfigAppears(text)).1.wg0.Some?
    ensures !Endangered(p, Serve(p, s, ServerConfigAppears(text)).1)
  {
  }

  lemma StartSound(p: Plan, wg0: Option<string>, reqs: seq<Request>)
    requires ValidPlan(p) && NoDeletions(reqs)
    ensures Sound(p, AfterAll(p, Disk(map[], wg0), reqs).peers)
  {
    assert Decoded(map[]) == map[];
    RunPeers(p, Disk(map[], wg0), reqs);
  }

  /**
   Equal AllowedIPs mean equal devices, as long as nobody edits the peers file, no device id or
   public key holds a line break, and the container's own text claims no address a device can get.
   */
  lemma NoConflictWithoutDeletions(p: Plan, wg0: Option<string>, reqs: seq<Request>)
    requires ValidPlan(p) && OneLineRun(reqs)
    requires StartText(wg0, reqs).Some? ==> SafeText(p, StartText(wg0, reqs).value)
    ensures !Conflict(AfterAll(p, Disk(map[], wg0), reqs))
  {
    StartCalm(p, wg0, reqs);
  }

  ghost predicate ConflictFrom(p: Plan, wg0: Option<string>, t: string, reqs: seq<Request>)
    requires ValidPlan(p)
  {
    StartText(wg0, reqs) == Some(t) && ConflictAfter(p, Disk(map[], wg0), reqs)
  }

  lemma {:induction false} StartTextStays(t: string, reqs: seq<Request>)
    ensures StartText(Some(t), reqs) == Some(t)
  {
    if reqs != [] {
      StartTextStays(t, reqs[..|reqs| - 1]);
    }
  }

  lemma {:induction false} StartTextFirst(t: string, reqs: seq<Request>)
    ensures StartText(None, [ServerConfigAppears(t)] + reqs) == Some(t)
  {
    var all := [ServerConfigAppears(t)] + reqs;
    if reqs == [] {
      assert all[..0] == [] && all == [ServerConfigAppears(t)];
    } else {
      assert all[..|all| - 1] == [ServerConfigAppears(t)] + reqs[..|reqs| - 1];
      StartTextFirst(t, reqs[..|reqs| - 1]);
    }
  }

  /**
   That condition on the text is exact: on an empty peers file, with the container's text there
   from the start or written later, some run without deletions and line breaks ends in a conflict
   iff the text claims an address a device can get, or has a conflict of its own.
   */
  lemma ConflictFromStartIff(p: Plan, wg0: Option<string>, t: string)
    requires ValidPlan(p) && (wg0 == None || wg0 == Some(t))
    ensures (exists reqs :: ConflictFrom(p, wg0, t, reqs)) <==> !SafeText(p, t)
  {
    if SafeText(p, t) {
      forall reqs ensures !ConflictFrom(p, wg0, t, reqs) {
        if StartText(wg0, reqs) == Some(t) && OneLineRun(reqs) {
          NoConflictWithoutDeletions(p, wg0, reqs);
        }
      }
    } else {
      var reqs := UnsafeTextConflicts(p, t);
      StartTextStays(t, reqs);
      if wg0 == None {
        WrittenFirst(p, t, reqs);
        assert ConflictFrom(p, None, t, [ServerConfigAppears(t)] + reqs);
      } else {
        assert ConflictFrom(p, Some(t), t, reqs);
      }
    }
  }

  lemma UnsafeTextConflicts(p: Plan, t: string) returns (reqs: seq<Request>)
    requires ValidPlan(p) && !SafeText(p, t)
    ensures ConflictAfter(p, Disk(map[], Some(t)), reqs)
  {
    var s := Disk(map[], Some(t));
    assert Decoded(map[]) == map[];
    if !ClaimsConflict(t) {
      var owner, h :| h in Assignable(p) && Claims(t, owner, Print(h) + "/32");
      assert Threat(p, s, owner, h);
    }
    ConflictReachableIff(p, s);
    reqs :| ConflictAfter(p, s, reqs);
  }

  lemma WrittenFirst(p: Plan, t: string, reqs: seq<Request>)
    requires ValidPlan(p) && ConflictAfter(p, Disk(map[], Some(t)), reqs)
    ensures ConflictFrom(p, None, t, [ServerConfigAppears(t)] + reqs)
  {
    var one := [ServerConfigAppears(t)];
    assert one[..0] == [] && AfterAll(p, Disk(map[], None), one[..0]) == Disk(map[], None);
    AfterAppend(p, Disk(map[], None), one, reqs);
    StartTextFirst(t, reqs);
  }

  /** A [Peer] section the container writes for a peer of its own is such a claim, whoever the peer is. */
  lemma ContainerPeerIsUnsafe(p: Plan, name: string, h: Address)
    requires ValidPlan(p) && h in Assignable(p) && Free(name, NL)
    ensures !SafeText(p, Written([PEER, "# " + name, ALLOWED + (Print(h) + "/32")]))
  {
    AllowedFree(h);
    var owner := ContainerPeerClaims(name, Print(h) + "/32");
  }

  lemma ContainerPeerClaims(name: string, allowed: string) returns (owner: Option<string>)
    requires Free(name, NL) && Free(allowed, NL)
    ensures Claims(Written([PEER, "# " + name, ALLOWED + allowed]), owner, allowed)
  {
    var body := ["# " + name, ALLOWED + allowed];
    var s := Section(PEER, body);
    owner := Owner(s);
    SectionReadsBack(PEER, body);
    assert [PEER] + body == [PEER, "# " + name, ALLOWED + allowed];
    assert body[1][|ALLOWED|..] == allowed && body[1..] == [body[1]];
    assert Values(body[1..], ALLOWED)[0] == allowed;
  }

  // ---------------------------------------------------------------- line breaks

  /**
   Without the condition on line breaks no text is safe: in every state, a device that is given an
   address can take away the one another device claims, by a public key of two lines.
   */
  lemma TwoLineKeyTakesAddress(p: Plan, s: Disk, device: string, victim: string, allowed: string)
    requires ValidPlan(p) && Sound(p, s.peers) && s.wg0.Some?
    requires Free(device, NL) && Free(allowed, NL) && device != victim && Claims(s.wg0.value, Some(victim), allowed)
    requires Allocate(p, s.peers, device).0.Ok?
    ensures Conflict(Serve(p, s, EnrollWith(device, TwoLineKey("K", allowed))).1)
  {
    var key, ip := TwoLineKey("K", allowed), Allocate(p, s.peers, device).0.value;
    EnrolEffect(p, s, device, key);
    AllocateSound(p, s.peers, device);
    var h := RecordedHost(p, Allocate(p, s.peers, device).1, device);
    TwoLineKeyConflicts(s.wg0.value, device, "K", ip, victim, allowed);
  }

  lemma RoomForAnother(hosts: set<Address>, used: set<Address>, a: Address)
    requires |hosts - used| >= 2
    ensures hosts - (used + {a}) != {}
  {
    if hosts - (used + {a}) == {} {
      SubsetCard(hosts - used, {a});
    }
  }

  /**
   Two enrolments of new devices are enough wherever two addresses are free: the second device's
   key names the address the first one gets.
   */
  lemma TwoEnrolmentsConflict(p: Plan, s: Disk, x: string, y: string) returns (key: string)
    requires ValidPlan(p) && Sound(p, s.peers) && s.wg0.Some? && x != y && x !in s.peers && y !in s.peers
    requires Free(x, NL) && Free(y, NL) && |SeqSet(Hosts(p.net)) - InUse(s.peers, p.server)| >= 2
    ensures Conflict(AfterAll(p, s, [EnrollWith(x, "key"), EnrollWith(y, key)]))
  {
    var s1, allowed := FirstClaims(p, s, x);
    key := TwoLineKey("K", allowed);
    SecondTakesAddress(p, s1, y, x, allowed);
    AfterTwo(p, s, EnrollWith(x, "key"), EnrollWith(y, key));
  }

  lemma FirstClaims(p: Plan, s: Disk, x: string) returns (s1: Disk, allowed: string)
    requires ValidPlan(p) && Sound(p, s.peers) && s.wg0.Some? && x !in s.peers && Free(x, NL)
    requires |SeqSet(Hosts(p.net)) - InUse(s.peers, p.server)| >= 2
    ensures AfterAll(p, s, [EnrollWith(x, "key")]) == s1 && s1.peers.Keys == s.peers.Keys + {x}
    ensures Sound(p, s1.peers) && SeqSet(Hosts(p.net)) - InUse(s1.peers, p.server) != {}
    ensures s1.wg0.Some? && Claims(s1.wg0.value, Some(x), allowed) && Free(allowed, NL)
  {
    var a := EnrolNew(p, s, x);
    s1, allowed := Enrolled(s, x, "key", Print(a)), Print(a) + "/32";
    EnrolledUse(p, s, x, a);
    RoomForAnother(SeqSet(Hosts(p.net)), InUse(s.peers, p.server), a);
    AllowedFree(a);
    PrintFree(a);
    EnrolledClaims(s, x, Print(a));
  }

  lemma AllowedFree(a: Address)
    ensures Free(Print(a) + "/32", NL)
  {
    PrintFree(a);
    FreeParts(Print(a), "/32", "");
    assert Print(a) + "/32" + "" == Print(a) + "/32";
  }

  lemma SecondTakesAddress(p: Plan, s: Disk, y: string, victim: string, allowed: string)
    requires ValidPlan(p) && Sound(p, s.peers) && s.wg0.Some? && y !in s.peers && y != victim
    requires SeqSet(Hosts(p.net)) - InUse(s.peers, p.server) != {}
    requires Free(y, NL) && Free(allowed, NL) && Claims(s.wg0.value, Some(victim), allowed)
    ensures Conflict(Serve(p, s, EnrollWith(y, TwoLineKey("K", allowed))).1)
  {
    var b := EnrolNew(p, s, y);
    TwoLineKeyTakesAddress(p, s, y, victim, allowed);
  }

  lemma AfterTwo(p: Plan, s: Disk, first: Request, second: Request)
    requires ValidPlan(p)
    ensures AfterAll(p, s, [first, second]) == Serve(p, AfterAll(p, s, [first]), second).1
  {
    assert [first, second][..1] == [first];
  }

  // ---------------------------------------------------------------- deletions

  /** Somebody claims the device's address; in a calm state that is the device, unless its id holds a line break. */
  ghost predicate AddressClaimed(s: Disk, device: string)
    requires device in s.peers
  {
    s.wg0.Some? && exists owner :: Claims(s.wg0.value, owner, s.peers[device] + "/32")
  }

  lemma DeletedThreat(p: Plan, s: Disk, device: string)
    requires ValidPlan(p) && Sound(p, s.peers) && device in s.peers && AddressClaimed(s, device)
    ensures Endangered(p, s.(peers := s.peers - {device}))
  {
    var s1 := s.(peers := s.peers - {device});
    var h := RecordedHost(p, s.peers, device);
    forall d ensures !Holds(s1, d, h) {
      if Holds(s1, d, h) {
        SoundText(p, s.peers, d, device);
      }
    }
    var owner :| Claims(s.wg0.value, owner, s.peers[device] + "/32");
    assert Threat(p, s1, owner, h);
  }

  lemma UnclaimedCalm(p: Plan, s: Disk, device: string)
    requires ValidPlan(p) && Sound(p, s.peers) && device in s.peers && !AddressClaimed(s, device) && !Endangered(p, s)
    ensures !Endangered(p, s.(peers := s.peers - {device}))
  {
    hide Sound, Claims;
    var s1 := s.(peers := s.peers - {device});
    forall owner, h ensures !Threat(p, s1, owner, h) {
      if s.wg0.Some? && h in Assignable(p) && Claims(s.wg0.value, owner, Print(h) + "/32") {
        assert !Threat(p, s, owner, h);
        var d :| Holds(s, d, h);
        assert Holds(s1, d, h) && forall e :: Holds(s1, e, h) ==> Holds(s, e, h);
      }
    }
  }

  /**
   Deleting a device from the peers file: its address may be handed out again while a [Peer] block
   for it stays. From a state in which no conflict was possible, one becomes possible by the
   deletion iff the device's address is claimed in wg0.conf.
   */
  lemma DeletionConflictsIff(p: Plan, s: Disk, device: string)
    requires ValidPlan(p) && Sound(p, s.peers) && s.wg0.Some? && device in s.peers
    requires forall reqs :: !ConflictAfter(p, s, reqs)
    ensures (exists reqs :: ConflictAfter(p, Serve(p, s, DeletePeer(device)).1, reqs)) <==> AddressClaimed(s, device)
  {
    var s1 := s.(peers := s.peers - {device});
    assert Serve(p, s, DeletePeer(device)).1 == s1;
    ConflictReachableIff(p, s);
    DeleteSound(p, s.peers, device);
    ConflictReachableIff(p, s1);
    if AddressClaimed(s, device) {
      DeletedThreat(p, s, device);
    } else {
      UnclaimedCalm(p, s, device);
    }
  }
}
