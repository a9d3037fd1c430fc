/**
 The WireGuard allocator over its persisted peers file: first free host wins. Laws: what a run of
 calls assigns, when a new device is refused, and what operator deletions leave intact.
 */
module WireGuard {
  import opened Common
  import opened Ipv4
  import opened ServerConf
  import opened Text

  type Peers = map<string, string>

  datatype AllocError =
    | Exhausted          // WireGuardError
    | BadPeersFile       // ip_address() cannot read a recorded address

  /** The network, the server's own address and its public name and port, fixed for the lifetime of the service. */
  datatype Plan = Plan(net: Network, server: Address, endpoint: string)

  predicate ValidPlan(p: Plan) { ValidNetwork(p.net) }

  predicate Readable(peers: Peers) {
    forall d :: d in peers ==> Parse(peers[d]).Some?
  }

  /** The recorded addresses, decoded. */
  ghost function Decoded(peers: Peers): map<string, Address>
    requires Readable(peers)
  {
    map d | d in peers :: Parse(peers[d]).value
  }

  /** The addresses no new device may get. */
  ghost function InUse(peers: Peers, server: Address): set<Address>
    requires Readable(peers)
  {
    {server} + Decoded(peers).Values
  }

  ghost function FirstFree(hs: seq<Address>, used: set<Address>): Option<Address> {
    if hs == [] then None
    else if hs[0] !in used then Some(hs[0])
    else FirstFree(hs[1..], used)
  }

  /** What one call does to the peers map. */
  ghost function Allocate(p: Plan, peers: Peers, device: string): (Result<string, AllocError>, Peers)
    requires ValidPlan(p)
  {
    if device in peers then (Ok(peers[device]), peers)
    else if !Readable(peers) then (Err(BadPeersFile), peers)
    else
      match FirstFree(Hosts(p.net), InUse(peers, p.server))
      case None => (Err(Exhausted), peers)
      case Some(a) => (Ok(Print(a)), peers[device := Print(a)])
  }

  lemma {:induction false} FirstFreeMeans(hs: seq<Address>, used: set<Address>)
    ensures FirstFree(hs, used).None? <==> forall i :: 0 <= i < |hs| ==> hs[i] in used
    ensures FirstFree(hs, used).Some? ==>
      exists i :: 0 <= i < |hs| && hs[i] == FirstFree(hs, used).value && hs[i] !in used
        && forall j :: 0 <= j < i ==> hs[j] in used
  {
    if hs != [] && hs[0] in used {
      FirstFreeMeans(hs[1..], used);
      if FirstFree(hs[1..], used).Some? {
        var i :| 0 <= i < |hs[1..]| && hs[1..][i] == FirstFree(hs, used).value && hs[1..][i] !in used
                 && forall j :: 0 <= j < i ==> hs[1..][j] in used;
        assert hs[i + 1] == FirstFree(hs, used).value;
        assert forall j :: 0 < j < i + 1 ==> hs[j] == hs[1..][j - 1];
      }
    }
  }

  ghost predicate Taken(p: Plan, peers: Peers, a: Address) {
    a == p.server || exists d :: d in peers && Parse(peers[d]) == Some(a)
  }

  /** The hosts before the i-th are the server's or recorded, and the i-th, if there is one, is neither. */
  ghost predicate NextHost(p: Plan, peers: Peers, i: nat)
    requires ValidPlan(p)
  {
    && i <= |Hosts(p.net)|
    && (forall j :: 0 <= j < i ==> Taken(p, peers, Hosts(p.net)[j]))
    && (i < |Hosts(p.net)| ==> !Taken(p, peers, Hosts(p.net)[i]))
  }

  lemma InUseMeans(p: Plan, peers: Peers, a: Address)
    requires Readable(peers)
    ensures a in InUse(peers, p.server) <==> Taken(p, peers, a)
  {
    if a in Decoded(peers).Values {
      var d :| d in Decoded(peers) && Decoded(peers)[d] == a;
      assert Parse(peers[d]) == Some(a);
    }
    if d :| d in peers && Parse(peers[d]) == Some(a) {
      assert Decoded(peers)[d] == a;
    }
  }

  /** One call for a new device: refused iff all usable hosts are taken, otherwise it gets the first that is not. */
  lemma FirstFitMeans(p: Plan, peers: Peers, device: string)
    requires ValidPlan(p)
    ensures device !in peers && Readable(peers) ==>
      var r := Allocate(p, peers, device).0;
      && (r == Err(Exhausted) <==> NextHost(p, peers, |Hosts(p.net)|))
      && (r.Ok? ==> exists i :: 0 <= i < |Hosts(p.net)| && r.value == Print(Hosts(p.net)[i]) && NextHost(p, peers, i))
  {
    if device !in peers && Readable(peers) {
      var hs, used := Hosts(p.net), InUse(peers, p.server);
      FirstFreeMeans(hs, used);
      forall j | 0 <= j < |hs| ensures hs[j] in used <==> Taken(p, peers, hs[j]) {
        InUseMeans(p, peers, hs[j]);
      }
      if FirstFree(hs, used).Some? {
        var i :| 0 <= i < |hs| && hs[i] == FirstFree(hs, used).value && hs[i] !in used
                 && forall j :: 0 <= j < i ==> hs[j] in used;
        assert NextHost(p, peers, i);
      }
    }
  }

  // ---------------------------------------------------------------- the service

  /** The config directory: it outlives every service process and is read by the terminal proxy. */
  class ConfigDir {
    var peersDb: Option<Peers>
    var wg0: Option<string>

    constructor (wg0: Option<string>)
      ensures peersDb == None && this.wg0 == wg0
    {
      peersDb := None;
      this.wg0 := wg0;
    }

    function Peers(): Peers
      reads this
    {
      if peersDb.Some? then peersDb.value else map[]
    }
  }

  class WireGuardConfig {
    const dir: ConfigDir
    const plan: Plan

    constructor (dir: ConfigDir, subnet: Address, prefix: nat, server: Address, url: string, port: nat)
      requires prefix <= 32
      ensures this.dir == dir && ValidPlan(plan)
      ensures plan == Plan(MakeNetwork(subnet, prefix), server, url + ":" + Decimal(port))
    {
      this.dir := dir;
      this.plan := Plan(MakeNetwork(subnet, prefix), server, url + ":" + Decimal(port));
    }

    method AllocateIp(device: string) returns (r: Result<string, AllocError>)
      requires ValidPlan(plan)
      modifies dir`peersDb
      ensures (r, dir.Peers()) == Allocate(plan, old(dir.Peers()), device)
      ensures r.Err? || device in old(dir.Peers()) ==> dir.peersDb == old(dir.peersDb)
      ensures r.Ok? ==> device in dir.Peers() && dir.Peers()[device] == r.value
      ensures device in old(dir.Peers()) ==> r == Ok(old(dir.Peers())[device])
      ensures r == Err(BadPeersFile) <==>
        device !in old(dir.Peers()) && exists d :: d in old(dir.Peers()) && Parse(old(dir.Peers())[d]).None?
      ensures r == Err(Exhausted) ==> device !in old(dir.Peers()) && NextHost(plan, old(dir.Peers()), |Hosts(plan.net)|)
      ensures r.Ok? && device !in old(dir.Peers()) ==>
        && dir.Peers() == old(dir.Peers())[device := r.value]
        && exists i :: 0 <= i < |Hosts(plan.net)| && r.value == Print(Hosts(plan.net)[i])
             && NextHost(plan, old(dir.Peers()), i)
    {
      FirstFitMeans(plan, dir.Peers(), device);
      var peers := dir.Peers();
      if device in peers {
        return Ok(peers[device]);
      }
      var used, readable := ReadAddresses(peers);
      if !readable {
        return Err(BadPeersFile);
      }
      used := used + {plan.server};
      assert used == InUse(peers, plan.server);
      var hosts := Hosts(plan.net);
      var i := 0;
      while i < |hosts|
        invariant 0 <= i <= |hosts|
        invariant dir.peersDb == old(dir.peersDb)
        invariant FirstFree(hosts[i..], used) == FirstFree(hosts, used)
      {
        if hosts[i] !in used {
          peers := peers[device := Print(hosts[i])];
          dir.peersDb := Some(peers);
          return Ok(Print(hosts[i]));
        }
        assert hosts[i..][1..] == hosts[i + 1..];
        i := i + 1;
      }
      r := Err(Exhausted);
    }

    /** The set comprehension over the recorded values; it raises at the first unreadable one. */
    method ReadAddresses(peers: Peers) returns (used: set<Address>, readable: bool)
      ensures readable == Readable(peers)
      ensures readable ==> used == Decoded(peers).Values
    {
      used := {};
      var left := peers.Keys;
      while left != {}
        invariant left <= peers.Keys
        invariant forall d :: d in peers && d !in left ==> Parse(peers[d]).Some?
        invariant used == set d | d in peers && d !in left && Parse(peers[d]).Some? :: Parse(peers[d]).value
        decreases left
      {
        var d :| d in left;
        var a := Parse(peers[d]);
        if a.None? {
          return {}, false;
        }
        ghost var before := left;
        left := left - {d};
        assert (set x | x in peers && x !in left && Parse(peers[x]).Some? :: Parse(peers[x]).value)
            == (set x | x in peers && x !in before && Parse(peers[x]).Some? :: Parse(peers[x]).value) + {a.value};
        used := used + {a.value};
      }
      readable := true;
      assert Readable(peers);
      assert used == Decoded(peers).Values by {
        assert forall d :: d in peers ==> Decoded(peers)[d] == Parse(peers[d]).value;
      }
    }

    /** Appends text: whatever is in the values, the sections that were in the file stay as they were. */
    method WriteServerPeer(device: string, ip: string, pubkey: string)
      modifies dir`wg0
      ensures dir.wg0 == if old(dir.wg0).None? then None else Some(old(dir.wg0).value + PeerBlock(device, pubkey, ip))
      ensures dir.wg0.Some? ==>
        Sections(dir.wg0.value) == Sections(old(dir.wg0).value) + Sections(PeerBlock(device, pubkey, ip))
      ensures dir.wg0.Some? && Free(device, NL) && Free(pubkey, NL) && Free(ip, NL) ==>
        exists s :: Sections(dir.wg0.value) == Sections(old(dir.wg0).value) + [s]
          && DescribesPeer(s, device, pubkey, ip)
    {
      PeerBlockReadsBackIff(device, pubkey, ip);
      if dir.wg0.None? {
        return;
      }
      BlockAppended(dir.wg0.value, device, pubkey, ip);
      dir.wg0 := Some(dir.wg0.value + PeerBlock(device, pubkey, ip));
    }

    /** The text for the device; `serverKey` is what get_server_pubkey reads. */
    method GenerateClientConfig(device: string, ip: string, pubkey: string, serverKey: string) returns (cfg: string)
      requires ValidPlan(plan)
      modifies dir`wg0
      ensures dir.wg0 == if pubkey == "" || old(dir.wg0).None? then old(dir.wg0)
                         else Some(old(dir.wg0).value + PeerBlock(device, pubkey, ip))
      ensures cfg == ClientText(plan, device, ip, serverKey)
      ensures Free(device, NL) && Free(ip, NL) && Free(serverKey, NL) && Free(plan.endpoint, NL) ==>
        DescribesClient(cfg, device, ip, Print(plan.server), serverKey, plan.endpoint,
                        Print(plan.net.base) + "/" + PrintOctet(plan.net.prefix))
    {
      if pubkey != "" {
        WriteServerPeer(device, ip, pubkey);
      }
      cfg := ClientConfig(device, ip, Print(plan.server), serverKey, plan.endpoint, SubnetText(plan.net));
      PrintFree(plan.server);
      SubnetTextFree(plan.net);
      if Free(device, NL) && Free(ip, NL) && Free(serverKey, NL) && Free(plan.endpoint, NL) {
        ClientConfigReadsBack(device, ip, Print(plan.server), serverKey, plan.endpoint, SubnetText(plan.net));
      }
    }
  }

  function ClientText(p: Plan, device: string, ip: string, serverKey: string): string
    requires ValidPlan(p)
  {
    ClientConfig(device, ip, Print(p.server), serverKey, p.endpoint, SubnetText(p.net))
  }

  /** The network in prefix notation. */
  function SubnetText(n: Network): string
    requires ValidNetwork(n)
  {
    Print(n.base) + "/" + PrintOctet(n.prefix)
  }

  lemma OctetFree(n: Octet)
    ensures Free(PrintOctet(n), NL)
  {
    ParseOctetPrint(n);
    assert forall c :: c in PrintOctet(n) ==> IsDigit(c);
  }

  lemma PrintFree(a: Address)
    ensures Free(Print(a), NL)
  {
    var o := Octets(a);
    OctetFree(o[0]);
    OctetFree(o[1]);
    OctetFree(o[2]);
    OctetFree(o[3]);
    JoinFree([PrintOctet(o[0]), PrintOctet(o[1]), PrintOctet(o[2]), PrintOctet(o[3])], '.', NL);
  }

  lemma SubnetTextFree(n: Network)
    requires ValidNetwork(n)
    ensures Free(SubnetText(n), NL)
  {
    PrintFree(n.base);
    OctetFree(n.prefix);
  }

  // ---------------------------------------------------------------- hosts in order

  ghost function SeqSet(s: seq<Address>): set<Address> { set i | 0 <= i < |s| :: s[i] }

  predicate Ascending(s: seq<Address>) { forall i, j :: 0 <= i < j < |s| ==> s[i] < s[j] }

  function Without(hs: seq<Address>, server: Address): seq<Address> {
    if hs == [] then [] else (if hs[0] == server then [] else [hs[0]]) + Without(hs[1..], server)
  }

  /** The hosts a device may get, in the order they are handed out. */
  function Usable(p: Plan): seq<Address>
    requires ValidPlan(p)
  {
    Without(Hosts(p.net), p.server)
  }

  lemma SeqSetCons(x: Address, s: seq<Address>)
    ensures SeqSet([x] + s) == {x} + SeqSet(s)
  {
    var c := [x] + s;
    forall i | 0 <= i < |c| ensures c[i] in {x} + SeqSet(s) {
      if i > 0 {
        assert c[i] == s[i - 1];
      }
    }
    forall i | 0 <= i < |s| ensures s[i] in SeqSet(c) {
      assert c[i + 1] == s[i];
    }
    assert c[0] in SeqSet(c);
  }

  lemma {:induction false} WithoutSet(hs: seq<Address>, server: Address)
    ensures SeqSet(Without(hs, server)) == SeqSet(hs) - {server}
  {
    if hs != [] {
      WithoutSet(hs[1..], server);
      assert hs == [hs[0]] + hs[1..];
      SeqSetCons(hs[0], hs[1..]);
      if hs[0] == server {
        assert Without(hs, server) == Without(hs[1..], server);
      } else {
        SeqSetCons(hs[0], Without(hs[1..], server));
      }
    }
  }

  lemma {:induction false} WithoutAscending(hs: seq<Address>, server: Address)
    requires Ascending(hs)
    ensures Ascending(Without(hs, server))
  {
    if hs != [] {
      var rest := Without(hs[1..], server);
      WithoutAscending(hs[1..], server);
      WithoutSet(hs[1..], server);
      forall j | 0 <= j < |rest| ensures hs[0] < rest[j] {
        assert rest[j] in SeqSet(rest);
        var i :| 0 <= i < |hs[1..]| && hs[1..][i] == rest[j];
        assert hs[i + 1] == rest[j];
      }
    }
  }

  lemma WithoutMembers(hs: seq<Address>, server: Address)
    requires Ascending(hs)
    ensures SeqSet(Without(hs, server)) == SeqSet(hs) - {server}
    ensures Ascending(Without(hs, server))
    ensures |Without(hs, server)| == |hs| - if server in SeqSet(hs) then 1 else 0
  {
    WithoutSet(hs, server);
    WithoutAscending(hs, server);
    AscendingCard(hs);
    AscendingCard(Without(hs, server));
    if server !in SeqSet(hs) {
      assert SeqSet(hs) - {server} == SeqSet(hs);
    }
  }

  lemma {:induction false} AscendingCard(s: seq<Address>)
    requires Ascending(s)
    ensures |SeqSet(s)| == |s|
  {
    if s == [] {
      assert SeqSet(s) == {};
    } else {
      var init := s[..|s| - 1];
      AscendingCard(init);
      assert SeqSet(s) == SeqSet(init) + {s[|s| - 1]};
      assert s[|s| - 1] !in SeqSet(init);
    }
  }

  // ---------------------------------------------------------------- what holds of the peers map

  ghost predicate Injective(m: map<string, Address>) {
    forall d, e :: d in m && e in m && m[d] == m[e] ==> d == e
  }

  /** Every device has its own usable host, never the server's. */
  ghost predicate Sound(p: Plan, peers: Peers)
    requires ValidPlan(p)
  {
    && Readable(peers)
    && Decoded(peers).Values <= SeqSet(Hosts(p.net)) - {p.server}
    && Injective(Decoded(peers))
  }

  lemma DecodedAdd(peers: Peers, device: string, a: Address)
    requires Readable(peers)
    ensures Readable(peers[device := Print(a)])
    ensures Decoded(peers[device := Print(a)]) == Decoded(peers)[device := a]
  {
    ParsePrint(a);
  }

  lemma FreeHost(hs: seq<Address>, used: set<Address>)
    requires FirstFree(hs, used).Some?
    ensures FirstFree(hs, used).value in SeqSet(hs) - used
  {
    FirstFreeMeans(hs, used);
    var i :| 0 <= i < |hs| && hs[i] == FirstFree(hs, used).value && hs[i] !in used;
  }

  lemma InjectiveAdd(m: map<string, Address>, d: string, a: Address)
    requires Injective(m) && d !in m && a !in m.Values
    ensures Injective(m[d := a]) && m[d := a].Values == m.Values + {a}
  {
    assert forall e :: e in m ==> m[e] in m.Values && m[d := a][e] == m[e];
    assert m[d := a][d] == a;
  }

  /** A call keeps that, and what it answers is recorded; devices already known keep their address. */
  lemma AllocateSound(p: Plan, peers: Peers, device: string)
    requires ValidPlan(p) && Sound(p, peers)
    ensures var (r, peers') := Allocate(p, peers, device);
            && Sound(p, peers')
            && (forall d :: d in peers ==> d in peers' && peers'[d] == peers[d])
            && (r.Ok? ==> device in peers' && peers'[device] == r.value && peers'.Keys == peers.Keys + {device})
            && (r.Err? ==> peers' == peers && device !in peers)
  {
    var found := FirstFree(Hosts(p.net), InUse(peers, p.server));
    if device !in peers && found.Some? {
      FreeHost(Hosts(p.net), InUse(peers, p.server));
      DecodedAdd(peers, device, found.value);
      InjectiveAdd(Decoded(peers), device, found.value);
    }
  }

  /** Operator deletions keep it too. */
  lemma DeleteSound(p: Plan, peers: Peers, device: string)
    requires ValidPlan(p) && Sound(p, peers)
    ensures Sound(p, peers - {device})
    ensures forall d :: d in peers && d != device ==> d in peers - {device} && (peers - {device})[d] == peers[d]
  {
    var rest := peers - {device};
    assert Decoded(rest) == Decoded(peers) - {device};
    forall d | d in rest ensures Decoded(rest)[d] in Decoded(peers).Values {
      assert Decoded(rest)[d] == Decoded(peers)[d];
    }
  }

  /** In text, too, no two devices share an address, and nobody has the server's. */
  lemma SoundText(p: Plan, peers: Peers, d: string, e: string)
    requires ValidPlan(p) && Sound(p, peers) && d in peers && e in peers
    ensures peers[d] == peers[e] ==> d == e
    ensures peers[d] != Print(p.server)
  {
    assert Decoded(peers)[d] == Parse(peers[d]).value && Decoded(peers)[e] == Parse(peers[e]).value;
    assert Decoded(peers)[d] in Decoded(peers).Values;
    ParsePrint(p.server);
  }

  datatype Op =
    | Call(device: string)
    | Delete(device: string)      // an operator edits the file
    | Restart                     // a new WireGuardConfig on the same directory

  ghost function After(p: Plan, ops: seq<Op>): Peers
    requires ValidPlan(p)
  {
    if ops == [] then map[]
    else
      var peers := After(p, ops[..|ops| - 1]);
      match ops[|ops| - 1]
      case Call(d) => Allocate(p, peers, d).1
      case Delete(d) => peers - {d}
      case Restart => peers
  }

  /** Injectivity, range and server-exclusion hold after any run, deletions and restarts included. */
  lemma {:induction false} RunSound(p: Plan, ops: seq<Op>)
    requires ValidPlan(p)
    ensures Sound(p, After(p, ops))
  {
    if ops != [] {
      RunSound(p, ops[..|ops| - 1]);
      var peers := After(p, ops[..|ops| - 1]);
      match ops[|ops| - 1]
      case Call(d) => AllocateSound(p, peers, d);
      case Delete(d) => DeleteSound(p, peers, d);
      case Restart =>
    }
  }

  /** A device keeps its address through everything except its own deletion. */
  lemma {:induction false} AddressStable(p: Plan, before: seq<Op>, more: seq<Op>, device: string)
    requires ValidPlan(p) && device in After(p, before)
    requires Delete(device) !in more
    ensures device in After(p, before + more) && After(p, before + more)[device] == After(p, before)[device]
    decreases |more|
  {
    if more == [] {
      assert before + more == before;
    } else {
      var init, last := more[..|more| - 1], more[|more| - 1];
      assert (before + more)[..|before + more| - 1] == before + init;
      AddressStable(p, before, init, device);
      RunSound(p, before + init);
      var peers := After(p, before + init);
      match last
      case Call(d) => AllocateSound(p, peers, d);
      case Delete(d) => assert last in more;
      case Restart =>
    }
  }

  // ---------------------------------------------------------------- exhaustion

  lemma {:induction false} InjectiveCard(m: map<string, Address>)
    requires Injective(m)
    ensures |m.Values| == |m|
    decreases |m|
  {
    if m == map[] {
      assert m.Values == {};
    } else {
      var d :| d in m;
      var rest := m - {d};
      assert m == rest[d := m[d]];
      InjectiveCard(rest);
      assert m[d] !in rest.Values;
      InjectiveAdd(rest, d, m[d]);
      assert m.Keys == rest.Keys + {d};
    }
  }

  lemma SubsetCard(a: set<Address>, b: set<Address>)
    requires a <= b
    ensures |a| <= |b| && (|a| == |b| ==> a == b)
  {
    if a != {} {
      var x :| x in a;
      SubsetCard(a - {x}, b - {x});
    }
  }

  lemma FullIff(hs: seq<Address>, server: Address, taken: set<Address>)
    requires Ascending(hs) && taken <= SeqSet(hs) - {server}
    ensures |taken| <= |Without(hs, server)|
    ensures FirstFree(hs, {server} + taken).None? <==> |taken| == |Without(hs, server)|
  {
    var u := SeqSet(hs) - {server};
    WithoutMembers(hs, server);
    AscendingCard(Without(hs, server));
    SubsetCard(taken, u);
    FirstFreeMeans(hs, {server} + taken);
    assert |u| == |Without(hs, server)|;
    var found := FirstFree(hs, {server} + taken);
    if found.None? {
      forall a | a in u ensures a in taken {
        var i :| 0 <= i < |hs| && hs[i] == a;
        assert hs[i] in {server} + taken;
      }
      assert taken == u;
    } else {
      FreeHost(hs, {server} + taken);
      assert found.value in u && found.value !in taken;
    }
  }

  /**
   Exhaustion is exact: a new device is refused iff there are as many recorded peers as usable
   hosts other than the server, and the refused call leaves the map alone.
   */
  lemma RefusedIffFull(p: Plan, peers: Peers, device: string)
    requires ValidPlan(p) && Sound(p, peers) && device !in peers
    ensures |peers| <= |Usable(p)|
    ensures Allocate(p, peers, device).0 == Err(Exhausted) <==> |peers| == |Usable(p)|
    ensures Allocate(p, peers, device).0 == Err(Exhausted) ==> Allocate(p, peers, device).1 == peers
  {
    InjectiveCard(Decoded(peers));
    assert Decoded(peers).Keys == peers.Keys;
    FullIff(Hosts(p.net), p.server, Decoded(peers).Values);
  }

  /** How many devices a subnet can hold. */
  lemma Capacity(p: Plan)
    requires ValidPlan(p)
    ensures |Usable(p)|
         == (if p.net.prefix == 32 then 1 else if p.net.prefix == 31 then 2 else Pow2(32 - p.net.prefix) - 2)
            - if p.server in SeqSet(Hosts(p.net)) then 1 else 0
  {
    WithoutMembers(Hosts(p.net), p.server);
  }

  // ---------------------------------------------------------------- first fit, closed form

  /** The distinct devices of a run of calls, in order of first appearance. */
  function Firsts(ds: seq<string>): seq<string> {
    if ds == [] then []
    else
      var f := Firsts(ds[..|ds| - 1]);
      if ds[|ds| - 1] in f then f else f + [ds[|ds| - 1]]
  }

  function Calls(ds: seq<string>): seq<Op> { seq(|ds|, i requires 0 <= i < |ds| => Call(ds[i])) }

  /** The i-th of the first n devices has the i-th of the hosts, and nobody else has any. */
  ghost predicate AssignedInOrder(m: map<string, Address>, devices: seq<string>, hosts: seq<Address>, n: nat) {
    && n <= |devices| && n <= |hosts|
    && (forall d :: d in m <==> d in devices[..n])
    && forall i :: 0 <= i < n ==> devices[i] in m && m[devices[i]] == hosts[i]
  }

  /** When exactly the first k usable hosts are used, the next one is found. */
  lemma {:induction false} FirstFreeAmong(hs: seq<Address>, server: Address, k: nat, used: set<Address>)
    requires Ascending(hs) && k <= |Without(hs, server)|
    requires forall a :: a in SeqSet(hs) ==> (a in used <==> a == server || a in Without(hs, server)[..k])
    ensures FirstFree(hs, used) == if k < |Without(hs, server)| then Some(Without(hs, server)[k]) else None
  {
    if hs != [] {
      var u, rest := Without(hs, server), Without(hs[1..], server);
      assert hs == [hs[0]] + hs[1..];
      SeqSetCons(hs[0], hs[1..]);
      assert hs[0] !in SeqSet(hs[1..]);
      if hs[0] == server {
        assert u == rest;
        FirstFreeAmong(hs[1..], server, k, used);
      } else {
        assert u == [hs[0]] + rest;
        if k == 0 {
          assert hs[0] !in used;
        } else {
          assert u[..k] == [hs[0]] + rest[..k - 1];
          FirstFreeAmong(hs[1..], server, k - 1, used);
        }
      }
    }
  }

  /**
   First fit in closed form: after any sequence of calls on an empty directory, the first distinct
   devices, as many as there is room for, hold the first usable hosts in that order; later ones hold nothing.
   */
  lemma {:induction false} FirstFitClosedForm(p: Plan, ds: seq<string>)
    requires ValidPlan(p)
    ensures Readable(After(p, Calls(ds)))
    ensures AssignedInOrder(Decoded(After(p, Calls(ds))), Firsts(ds), Usable(p), Min(|Firsts(ds)|, |Usable(p)|))
  {
    if ds == [] {
      assert Decoded(After(p, Calls(ds))) == map[];
    } else {
      var init, d := ds[..|ds| - 1], ds[|ds| - 1];
      FirstFitClosedForm(p, init);
      assert Calls(ds)[..|ds| - 1] == Calls(init);
      FirstFitStep(p, After(p, Calls(init)), Firsts(init), d);
    }
  }

  lemma OrderedValues(m: map<string, Address>, f: seq<string>, u: seq<Address>, n: nat)
    requires AssignedInOrder(m, f, u, n)
    ensures forall a :: a in m.Values <==> a in u[..n]
  {
    forall a | a in m.Values ensures a in u[..n] {
      var d :| d in m && m[d] == a;
      var i :| 0 <= i < n && f[..n][i] == d;
      assert u[..n][i] == a;
    }
    forall a | a in u[..n] ensures a in m.Values {
      var i :| 0 <= i < n && u[..n][i] == a;
      assert m[f[i]] == a;
    }
  }

  lemma OrderedAdd(m: map<string, Address>, f: seq<string>, u: seq<Address>, d: string)
    requires |f| < |u| && AssignedInOrder(m, f, u, |f|) && d !in f
    ensures AssignedInOrder(m[d := u[|f|]], f + [d], u, |f| + 1)
  {
    var g := f + [d];
    assert g[..|f| + 1] == g && f[..|f|] == f;
    forall i | 0 <= i < |f| + 1 ensures g[i] in m[d := u[|f|]] && m[d := u[|f|]][g[i]] == u[i] {
      if i < |f| {
        assert g[i] == f[i] && f[i] in f;
      }
    }
  }

  lemma FirstFitStep(p: Plan, peers: Peers, f: seq<string>, d: string)
    requires ValidPlan(p) && Readable(peers)
    requires AssignedInOrder(Decoded(peers), f, Usable(p), Min(|f|, |Usable(p)|))
    ensures var f' := if d in f then f else f + [d];
            var peers' := Allocate(p, peers, d).1;
            Readable(peers') && AssignedInOrder(Decoded(peers'), f', Usable(p), Min(|f'|, |Usable(p)|))
  {
    var m, u, hs := Decoded(peers), Usable(p), Hosts(p.net);
    var n := Min(|f|, |u|);
    if d in peers {
      assert d in m && d in f[..n];
      assert d in f;
    } else {
      OrderedValues(m, f, u, n);
      FirstFreeAmong(hs, p.server, n, InUse(peers, p.server));
      if n < |u| {
        assert f[..n] == f;
        NextHostOrdered(p, peers, f, d);
      } else {
        FullStaysOrdered(m, f, u, d);
      }
    }
  }

  lemma NextHostOrdered(p: Plan, peers: Peers, f: seq<string>, d: string)
    requires ValidPlan(p) && Readable(peers) && |f| < |Usable(p)| && d !in f
    requires AssignedInOrder(Decoded(peers), f, Usable(p), |f|)
    ensures var peers' := peers[d := Print(Usable(p)[|f|])];
            Readable(peers') && AssignedInOrder(Decoded(peers'), f + [d], Usable(p), |f| + 1)
  {
    DecodedAdd(peers, d, Usable(p)[|f|]);
    OrderedAdd(Decoded(peers), f, Usable(p), d);
  }

  lemma FullStaysOrdered(m: map<string, Address>, f: seq<string>, u: seq<Address>, d: string)
    requires |u| <= |f| && AssignedInOrder(m, f, u, |u|)
    ensures AssignedInOrder(m, f + [d], u, |u|)
  {
    assert (f + [d])[..|u|] == f[..|u|];
  }
}
