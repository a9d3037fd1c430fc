/**
 The two WireGuard texts of wireguard.py, the [Peer] block appended to the server's wg0.conf and
 the configuration handed to a device, and what a reader of such a text finds in it: lines grouped
 into sections. Values go into the text as they are, so a line break in one of them is a new line.
 */
module ServerConf {
  import opened Common
  import opened Text

  const NL: char := '\n'

  const PEER := "[Peer]"
  const DEVICE := "# device: "
  const KEY := "PublicKey = "
  const ALLOWED := "AllowedIPs = "

  function Lines(t: string): seq<string> { Split(t, NL) }

  /** Each line with its line feed. */
  function Written(ls: seq<string>): string {
    if ls == [] then "" else ls[0] + [NL] + Written(ls[1..])
  }

  function PeerLines(device: string, pubkey: string, ip: string): seq<string> {
    [DEVICE + device, KEY + pubkey, ALLOWED + ip + "/32"]
  }

  /** The block write_server_peer appends. */
  function PeerBlock(device: string, pubkey: string, ip: string): string {
    [NL] + Written([PEER] + PeerLines(device, pubkey, ip))
  }

  // ---------------------------------------------------------------- reading

  datatype Section = Section(header: string, lines: seq<string>)

  predicate IsHeader(line: string) { line != "" && line[0] == '[' }

  /** One more line: a header opens a section, blank lines and lines before the first header count for nothing. */
  function TakeLine(ss: seq<Section>, line: string): seq<Section> {
    if IsHeader(line) then ss + [Section(line, [])]
    else if ss == [] || line == "" then ss
    else ss[..|ss| - 1] + [Section(ss[|ss| - 1].header, ss[|ss| - 1].lines + [line])]
  }

  function Read(ss: seq<Section>, ls: seq<string>): seq<Section>
    decreases |ls|
  {
    if ls == [] then ss else Read(TakeLine(ss, ls[0]), ls[1..])
  }

  function Sections(t: string): seq<Section> { Read([], Lines(t)) }

  /** The values a section gives for a label, in order. */
  function Values(ls: seq<string>, prefix: string): seq<string> {
    if ls == [] then []
    else (if prefix <= ls[0] then [ls[0][|prefix|..]] else []) + Values(ls[1..], prefix)
  }

  /** The device named in a section: its first device comment. */
  function Owner(s: Section): Option<string> {
    var names := Values(s.lines, DEVICE);
    if names == [] then None else Some(names[0])
  }

  /** Some [Peer] section of this owner has these AllowedIPs. */
  ghost predicate Claims(t: string, owner: Option<string>, allowed: string) {
    exists s :: s in Sections(t) && s.header == PEER && Owner(s) == owner && allowed in Values(s.lines, ALLOWED)
  }

  ghost predicate Claimed(t: string, allowed: string, a: Option<string>, b: Option<string>) {
    Claims(t, a, allowed) && Claims(t, b, allowed)
  }

  /** Sections of different owners with the same AllowedIPs. */
  ghost predicate ClaimsConflict(t: string) {
    exists allowed, a, b :: Claimed(t, allowed, a, b) && a != b
  }

  // ---------------------------------------------------------------- sections of appended text

  lemma {:induction false} ReadAppend(ss: seq<Section>, a: seq<string>, b: seq<string>)
    ensures Read(ss, a + b) == Read(Read(ss, a), b)
    decreases |a|
  {
    if a == [] {
      assert a + b == b;
    } else {
      assert (a + b)[1..] == a[1..] + b;
      ReadAppend(TakeLine(ss, a[0]), a[1..], b);
    }
  }

  lemma TakeBehind(closed: seq<Section>, ss: seq<Section>, line: string)
    requires ss != [] || IsHeader(line)
    ensures TakeLine(closed + ss, line) == closed + TakeLine(ss, line)
  {
    var all := closed + ss;
    if ss != [] {
      assert all[..|all| - 1] == closed + ss[..|ss| - 1] && all[|all| - 1] == ss[|ss| - 1];
    }
  }

  /** Sections that are closed stay as they are. */
  lemma {:induction false} ReadBehind(closed: seq<Section>, ss: seq<Section>, ls: seq<string>)
    requires ss != [] || (ls != [] && IsHeader(ls[0]))
    ensures Read(closed + ss, ls) == closed + Read(ss, ls)
    decreases |ls|
  {
    if ls != [] {
      TakeBehind(closed, ss, ls[0]);
      ReadBehind(closed, TakeLine(ss, ls[0]), ls[1..]);
    }
  }

  lemma BlankLine(ss: seq<Section>)
    ensures Read(ss, [""]) == ss
  {
    assert [""][1..] == [];
  }

  /** What is written behind a text, starting with a header, adds its sections behind those of the text. */
  lemma SectionsAppend(t: string, header: string, rest: string)
    requires IsHeader(header) && Free(header, NL)
    ensures var more := header + [NL] + rest;
            Sections(t + [NL] + more) == Sections(t) + Sections(more) && Sections([NL] + more) == Sections(more)
  {
    var more := header + [NL] + rest;
    SplitWord(header, rest, NL);
    SplitAppend(t, more, NL);
    ReadAppend([], Lines(t), Lines(more));
    assert Sections(t) + [] == Sections(t);
    ReadBehind(Sections(t), [], Lines(more));
    SplitAppend("", more, NL);
    assert "" + [NL] + more == [NL] + more;
    ReadAppend([], [""], Lines(more));
    BlankLine([]);
  }

  /** Appending a block, whatever is in it, adds its sections behind those of the file. */
  lemma BlockAppended(t: string, device: string, pubkey: string, ip: string)
    ensures Sections(t + PeerBlock(device, pubkey, ip)) == Sections(t) + Sections(PeerBlock(device, pubkey, ip))
  {
    var ls := [PEER] + PeerLines(device, pubkey, ip);
    SectionsAppend(t, PEER, Written(ls[1..]));
    assert t + PeerBlock(device, pubkey, ip) == t + [NL] + Written(ls);
  }

  lemma ClaimsKept(t: string, device: string, pubkey: string, ip: string, owner: Option<string>, allowed: string)
    requires Claims(t, owner, allowed)
    ensures Claims(t + PeerBlock(device, pubkey, ip), owner, allowed)
  {
    BlockAppended(t, device, pubkey, ip);
    var s :| s in Sections(t) && s.header == PEER && Owner(s) == owner && allowed in Values(s.lines, ALLOWED);
    assert s in Sections(t + PeerBlock(device, pubkey, ip));
  }

  // ---------------------------------------------------------------- when a section reads back

  predicate Plain(line: string) { line != "" && !IsHeader(line) }

  /** Lines that neither open a section nor are blank all go to the section that is open. */
  lemma {:induction false} ReadPlain(header: string, before: seq<string>, ls: seq<string>)
    requires forall l :: l in ls ==> Plain(l)
    ensures Read([Section(header, before)], ls) == [Section(header, before + ls)]
    decreases |ls|
  {
    if ls == [] {
      assert before + ls == before;
    } else {
      assert ls[0] in ls;
      var ss := [Section(header, before)];
      assert ss[..0] == [];
      assert TakeLine(ss, ls[0]) == [Section(header, before + [ls[0]])];
      ReadPlain(header, before + [ls[0]], ls[1..]);
      assert before + [ls[0]] + ls[1..] == before + ls;
    }
  }

  lemma {:induction false} WrittenLines(ls: seq<string>)
    requires forall l :: l in ls ==> Free(l, NL)
    ensures Lines(Written(ls)) == ls + [""]
  {
    if ls != [] {
      assert ls[0] in ls;
      WrittenLines(ls[1..]);
      SplitWord(ls[0], Written(ls[1..]), NL);
      assert [ls[0]] + (ls[1..] + [""]) == ls + [""];
    }
  }

  /** A section written from lines without line breaks is read back as it was. */
  lemma SectionReadsBack(header: string, body: seq<string>)
    requires IsHeader(header) && Free(header, NL)
    requires forall l :: l in body ==> Free(l, NL) && Plain(l)
    ensures Sections(Written([header] + body)) == [Section(header, body)]
  {
    WrittenLines([header] + body);
    var rest := body + [""];
    assert [header] + body + [""] == [header] + rest && ([header] + rest)[1..] == rest;
    assert TakeLine([], header) == [Section(header, [])];
    ReadAppend([Section(header, [])], body, [""]);
    ReadPlain(header, [], body);
    assert [] + body == body;
    BlankLine([Section(header, body)]);
  }

  ghost predicate SectionsFree(ss: seq<Section>) {
    forall s, l :: s in ss && l in s.lines ==> Free(l, NL)
  }

  lemma {:induction false} ReadKeepsFree(ss: seq<Section>, ls: seq<string>)
    requires SectionsFree(ss) && forall l :: l in ls ==> Free(l, NL)
    ensures SectionsFree(Read(ss, ls))
    decreases |ls|
  {
    if ls != [] {
      assert ls[0] in ls;
      ReadKeepsFree(TakeLine(ss, ls[0]), ls[1..]);
    }
  }

  /** What is read line by line holds no line break. */
  lemma ReadIsFree(t: string)
    ensures SectionsFree(Sections(t))
  {
    SplitPartsFree(t, NL);
    ReadKeepsFree([], Lines(t));
  }

  lemma FreeParts(a: string, b: string, c: string)
    ensures Free(a, NL) && Free(c, NL) ==> (Free(a + b + c, NL) <==> Free(b, NL))
  {
    var t := a + b + c;
    if NL in b {
      var i :| 0 <= i < |b| && b[i] == NL;
      assert t[|a| + i] == NL;
    }
  }

  lemma PeerLinesFree(device: string, pubkey: string, ip: string)
    ensures (forall l :: l in PeerLines(device, pubkey, ip) ==> Free(l, NL))
       <==> Free(device, NL) && Free(pubkey, NL) && Free(ip, NL)
  {
    var ls := PeerLines(device, pubkey, ip);
    FreeParts(DEVICE, device, "");
    FreeParts(KEY, pubkey, "");
    FreeParts(ALLOWED, ip, "/32");
    assert DEVICE + device + "" == ls[0] && KEY + pubkey + "" == ls[1] && ALLOWED + ip + "/32" == ls[2];
    assert ls[0] in ls && ls[1] in ls && ls[2] in ls;
  }

  /** A block is read back as the one section it was written for iff none of its values holds a line break. */
  lemma PeerBlockReadsBackIff(device: string, pubkey: string, ip: string)
    ensures Sections(PeerBlock(device, pubkey, ip)) == [Section(PEER, PeerLines(device, pubkey, ip))]
       <==> Free(device, NL) && Free(pubkey, NL) && Free(ip, NL)
    ensures DescribesPeer(Section(PEER, PeerLines(device, pubkey, ip)), device, pubkey, ip)
  {
    PeerSectionMeans(device, pubkey, ip);
    var ls, read := PeerLines(device, pubkey, ip), Sections(PeerBlock(device, pubkey, ip));
    PeerLinesFree(device, pubkey, ip);
    ReadIsFree(PeerBlock(device, pubkey, ip));
    assert read == [Section(PEER, ls)] ==> forall l :: l in ls ==> Free(l, NL) by {
      if read == [Section(PEER, ls)] {
        assert Section(PEER, ls) in read;
      }
    }
    if forall l :: l in ls ==> Free(l, NL) {
      SectionReadsBack(PEER, ls);
      SectionsAppend("", PEER, Written(([PEER] + ls)[1..]));
    }
  }

  /** A section in which one line alone has the label gives that line's value. */
  lemma {:induction false} OneValue(ls: seq<string>, i: nat, name: string, v: string)
    requires i < |ls| && ls[i] == name + v
    requires forall j :: 0 <= j < |ls| && j != i ==> !(name <= ls[j])
    ensures Values(ls, name) == [v]
  {
    if i == 0 {
      assert ls[0][|name|..] == v;
      NoValue(ls[1..], name);
    } else {
      OneValue(ls[1..], i - 1, name, v);
    }
  }

  lemma {:induction false} NoValue(ls: seq<string>, name: string)
    requires forall j :: 0 <= j < |ls| ==> !(name <= ls[j])
    ensures Values(ls, name) == []
  {
    if ls != [] {
      NoValue(ls[1..], name);
    }
  }

  /** The section of one device in the server's file: its three lines, and nothing else. */
  predicate DescribesPeer(s: Section, device: string, pubkey: string, ip: string) {
    && s.header == "[Peer]" && |s.lines| == 3
    && Values(s.lines, "# device: ") == [device]
    && Values(s.lines, "PublicKey = ") == [pubkey]
    && Values(s.lines, "AllowedIPs = ") == [ip + "/32"]
  }

  lemma PeerSectionMeans(device: string, pubkey: string, ip: string)
    ensures DescribesPeer(Section(PEER, PeerLines(device, pubkey, ip)), device, pubkey, ip)
  {
    var ls := PeerLines(device, pubkey, ip);
    assert ls[0][0] == '#' && ls[1][0] == 'P' && ls[2][0] == 'A';
    OneValue(ls, 0, "# device: ", device);
    OneValue(ls, 1, "PublicKey = ", pubkey);
    OneValue(ls, 2, "AllowedIPs = ", ip + "/32");
  }

  /** What a section for a device claims. */
  lemma PeerValues(device: string, pubkey: string, ip: string)
    ensures Owner(Section(PEER, PeerLines(device, pubkey, ip))) == Some(device)
    ensures Values(PeerLines(device, pubkey, ip), ALLOWED) == [ip + "/32"]
  {
    PeerSectionMeans(device, pubkey, ip);
  }

  /** A block without line breaks adds exactly one claim. */
  lemma ClaimsAppend(t: string, device: string, pubkey: string, ip: string, owner: Option<string>, allowed: string)
    requires Free(device, NL) && Free(pubkey, NL) && Free(ip, NL)
    ensures Claims(t + PeerBlock(device, pubkey, ip), owner, allowed)
       <==> Claims(t, owner, allowed) || (owner == Some(device) && allowed == ip + "/32")
  {
    var all, s := Sections(t + PeerBlock(device, pubkey, ip)), Section(PEER, PeerLines(device, pubkey, ip));
    BlockAppended(t, device, pubkey, ip);
    PeerBlockReadsBackIff(device, pubkey, ip);
    PeerValues(device, pubkey, ip);
    assert all == Sections(t) + [s];
    assert forall x :: x in all <==> x in Sections(t) || x == s;
    if Claims(t, owner, allowed) {
      ClaimsKept(t, device, pubkey, ip, owner, allowed);
    }
    if owner == Some(device) && allowed == ip + "/32" {
      assert s in all && allowed in Values(s.lines, ALLOWED);
    }
  }

  // ---------------------------------------------------------------- a line break in a public key

  /** A public key that brings an AllowedIPs line of its own. */
  function TwoLineKey(pubkey: string, allowed: string): string { pubkey + [NL] + (ALLOWED + allowed) }

  function TwoLineBody(device: string, pubkey: string, allowed: string, ip: string): seq<string> {
    [DEVICE + device, KEY + pubkey, ALLOWED + allowed, ALLOWED + ip + "/32"]
  }

  lemma TwoLineKeyText(device: string, pubkey: string, allowed: string, ip: string)
    ensures Written([PEER] + PeerLines(device, TwoLineKey(pubkey, allowed), ip))
         == Written([PEER] + TwoLineBody(device, pubkey, allowed, ip))
  {
    var ls, body := PeerLines(device, TwoLineKey(pubkey, allowed), ip), TwoLineBody(device, pubkey, allowed, ip);
    var tail := Written([ALLOWED + ip + "/32"]);
    assert ls[1..][1..] == [ALLOWED + ip + "/32"] == body[1..][1..][1..];
    assert Written(ls[1..]) == KEY + TwoLineKey(pubkey, allowed) + [NL] + tail;
    assert Written(body[1..]) == KEY + pubkey + [NL] + (ALLOWED + allowed + [NL] + tail);
    assert KEY + TwoLineKey(pubkey, allowed) + [NL] + tail == KEY + pubkey + [NL] + (ALLOWED + allowed + [NL] + tail);
    assert Written(ls) == ls[0] + [NL] + Written(ls[1..]) == Written(body);
    assert ([PEER] + ls)[1..] == ls && ([PEER] + body)[1..] == body;
  }

  lemma TwoLineKeySection(device: string, pubkey: string, allowed: string, ip: string)
    requires Free(device, NL) && Free(pubkey, NL) && Free(allowed, NL) && Free(ip, NL)
    ensures Sections(PeerBlock(device, TwoLineKey(pubkey, allowed), ip))
         == [Section(PEER, TwoLineBody(device, pubkey, allowed, ip))]
  {
    var body := TwoLineBody(device, pubkey, allowed, ip);
    TwoLineKeyText(device, pubkey, allowed, ip);
    SectionReadsBack(PEER, body);
    SectionsAppend("", PEER, Written(([PEER] + body)[1..]));
  }

  lemma TwoLineValues(device: string, pubkey: string, allowed: string, ip: string)
    ensures var body := TwoLineBody(device, pubkey, allowed, ip);
            Owner(Section(PEER, body)) == Some(device) && allowed in Values(body, ALLOWED)
  {
    var body := TwoLineBody(device, pubkey, allowed, ip);
    assert body[0][|DEVICE|..] == device && body[2][|ALLOWED|..] == allowed;
    assert body[1..][1..] == body[2..] && body[2..][0] == body[2];
    assert Values(body[2..], ALLOWED)[0] == allowed;
    assert allowed in Values(body[1..], ALLOWED);
  }

  /** Such a key claims any address at will, also one that another device holds. */
  lemma TwoLineKeyConflicts(t: string, device: string, pubkey: string, ip: string, other: string, allowed: string)
    requires Free(device, NL) && Free(pubkey, NL) && Free(allowed, NL) && Free(ip, NL)
    requires Claims(t, Some(other), allowed) && other != device
    ensures ClaimsConflict(t + PeerBlock(device, TwoLineKey(pubkey, allowed), ip))
  {
    var key := TwoLineKey(pubkey, allowed);
    var t' := t + PeerBlock(device, key, ip);
    var s := Section(PEER, TwoLineBody(device, pubkey, allowed, ip));
    ClaimsKept(t, device, key, ip, Some(other), allowed);
    BlockAppended(t, device, key, ip);
    TwoLineKeySection(device, pubkey, allowed, ip);
    TwoLineValues(device, pubkey, allowed, ip);
    assert s in Sections(t');
    assert Claims(t', Some(device), allowed);
    assert Claimed(t', allowed, Some(device), Some(other));
  }

  // ---------------------------------------------------------------- the client's configuration

  /** The lines of the two sections of the text handed to the device. */
  function InterfaceLines(device: string, ip: string, dns: string): seq<string> {
    ["# Device: " + device, "Address = " + ip + "/24", PRIVATE_KEY, "DNS = " + dns]
  }

  const PRIVATE_KEY := "PrivateKey = <REPLACE_WITH_DEVICE_PRIVATE_KEY>"

  // In pieces, as the solver does not look through a literal of this length at once.
  lemma PrivateKeyFree()
    ensures Free(PRIVATE_KEY, NL) && Plain(PRIVATE_KEY)
  {
    PrivateKeyPieces();
    assert Free("PrivateKey = ", NL) && Free("<REPLACE_WITH_", NL) && Free("DEVICE_PRIVATE_KEY>", NL);
    FreeParts("PrivateKey = ", "<REPLACE_WITH_", "DEVICE_PRIVATE_KEY>");
    assert PRIVATE_KEY[0] == 'P';
  }

  lemma PrivateKeyPieces()
    ensures PRIVATE_KEY == "PrivateKey = " + "<REPLACE_WITH_" + "DEVICE_PRIVATE_KEY>"
  {
  }

  function ServerLines(serverKey: string, endpoint: string, subnet: string): seq<string> {
    [KEY + serverKey, "Endpoint = " + endpoint, ALLOWED + subnet, "PersistentKeepalive = 25"]
  }

  function ClientConfig(device: string, ip: string, dns: string, serverKey: string, endpoint: string, subnet: string)
    : string
  {
    Written(["[Interface]"] + InterfaceLines(device, ip, dns)) + [NL]
    + Written([PEER] + ServerLines(serverKey, endpoint, subnet))
  }

  lemma ClientLinesFree(device: string, ip: string, dns: string, serverKey: string, endpoint: string, subnet: string)
    requires Free(device, NL) && Free(ip, NL) && Free(dns, NL)
    requires Free(serverKey, NL) && Free(endpoint, NL) && Free(subnet, NL)
    ensures forall l :: l in InterfaceLines(device, ip, dns) ==> Free(l, NL) && Plain(l)
    ensures forall l :: l in ServerLines(serverKey, endpoint, subnet) ==> Free(l, NL) && Plain(l)
  {
    var a, b := InterfaceLines(device, ip, dns), ServerLines(serverKey, endpoint, subnet);
    PrivateKeyFree();
    assert Free(a[0], NL) && Free(a[1], NL) && Free(a[2], NL) && Free(a[3], NL);
    assert Free(b[0], NL) && Free(b[1], NL) && Free(b[2], NL) && Free(b[3], NL);
    assert a[0][0] == '#' && a[1][0] == 'A' && a[3][0] == 'D';
    assert b[0][0] == 'P' && b[1][0] == 'E' && b[2][0] == 'A' && b[3][0] == 'P';
  }

  /** What a reader of a device's configuration finds in it, label by label. */
  ghost predicate DescribesClient(
      t: string, device: string, ip: string, dns: string, serverKey: string, endpoint: string, subnet: string)
  {
    && |Sections(t)| == 2
    && (var own := Sections(t)[0];
        && own.header == "[Interface]" && |own.lines| == 4
        && Values(own.lines, "# Device: ") == [device]
        && Values(own.lines, "Address = ") == [ip + "/24"]
        && Values(own.lines, "PrivateKey = ") == ["<REPLACE_WITH_DEVICE_PRIVATE_KEY>"]
        && Values(own.lines, "DNS = ") == [dns])
    && (var peer := Sections(t)[1];
        && peer.header == "[Peer]" && |peer.lines| == 4
        && Values(peer.lines, "PublicKey = ") == [serverKey]
        && Values(peer.lines, "Endpoint = ") == [endpoint]
        && Values(peer.lines, "AllowedIPs = ") == [subnet]
        && Values(peer.lines, "PersistentKeepalive = ") == ["25"])
  }

  lemma InterfaceMeans(device: string, ip: string, dns: string)
    ensures var ls := InterfaceLines(device, ip, dns);
            && |ls| == 4
            && Values(ls, "# Device: ") == [device]
            && Values(ls, "Address = ") == [ip + "/24"]
            && Values(ls, "PrivateKey = ") == ["<REPLACE_WITH_DEVICE_PRIVATE_KEY>"]
            && Values(ls, "DNS = ") == [dns]
  {
    var ls := InterfaceLines(device, ip, dns);
    PrivateKeyLine();
    hide PRIVATE_KEY;
    assert ls[0] == "# Device: " + device && ls[1] == "Address = " + ip + "/24" && ls[3] == "DNS = " + dns;
    assert ls[0][0] == '#' && ls[1][0] == 'A' && ls[2][0] == 'P' && ls[3][0] == 'D';
    OneValue(ls, 0, "# Device: ", device);
    OneValue(ls, 1, "Address = ", ip + "/24");
    OneValue(ls, 2, "PrivateKey = ", PRIVATE_KEY[|"PrivateKey = "|..]);
    OneValue(ls, 3, "DNS = ", dns);
  }

  lemma PrivateKeyLine()
    ensures "PrivateKey = " <= PRIVATE_KEY
    ensures PRIVATE_KEY[|"PrivateKey = "|..] == "<REPLACE_WITH_DEVICE_PRIVATE_KEY>"
    ensures PRIVATE_KEY[0] == 'P'
  {
    PrivateKeyPieces();
    PlaceholderPieces();
    hide PRIVATE_KEY;
    var rest := "<REPLACE_WITH_" + "DEVICE_PRIVATE_KEY>";
    assert PRIVATE_KEY == "PrivateKey = " + rest;
  }

  lemma PlaceholderPieces()
    ensures "<REPLACE_WITH_DEVICE_PRIVATE_KEY>" == "<REPLACE_WITH_" + "DEVICE_PRIVATE_KEY>"
  {
  }

  lemma ServerMeans(serverKey: string, endpoint: string, subnet: string)
    ensures var ls := ServerLines(serverKey, endpoint, subnet);
            && |ls| == 4
            && Values(ls, "PublicKey = ") == [serverKey]
            && Values(ls, "Endpoint = ") == [endpoint]
            && Values(ls, "AllowedIPs = ") == [subnet]
            && Values(ls, "PersistentKeepalive = ") == ["25"]
  {
    var ls := ServerLines(serverKey, endpoint, subnet);
    assert ls[0][0] == 'P' && ls[1][0] == 'E' && ls[2][0] == 'A' && ls[3][0] == 'P';
    assert ls[0][1] == 'u' && ls[3][1] == 'e';
    OneValue(ls, 0, "PublicKey = ", serverKey);
    OneValue(ls, 1, "Endpoint = ", endpoint);
    OneValue(ls, 2, "AllowedIPs = ", subnet);
    OneValue(ls, 3, "PersistentKeepalive = ", "25");
  }

  lemma ClientSections(device: string, ip: string, dns: string, serverKey: string, endpoint: string, subnet: string)
    requires Free(device, NL) && Free(ip, NL) && Free(dns, NL)
    requires Free(serverKey, NL) && Free(endpoint, NL) && Free(subnet, NL)
    ensures Sections(ClientConfig(device, ip, dns, serverKey, endpoint, subnet))
         == [Section("[Interface]", InterfaceLines(device, ip, dns)),
             Section(PEER, ServerLines(serverKey, endpoint, subnet))]
  {
    var a, b := InterfaceLines(device, ip, dns), ServerLines(serverKey, endpoint, subnet);
    ClientLinesFree(device, ip, dns, serverKey, endpoint, subnet);
    SectionReadsBack("[Interface]", a);
    SectionReadsBack(PEER, b);
    SectionsAppend(Written(["[Interface]"] + a), PEER, Written(([PEER] + b)[1..]));
  }

  /** Without line breaks in its values the text says to a reader what it is meant to, and no more. */
  lemma ClientConfigReadsBack(
      device: string, ip: string, dns: string, serverKey: string, endpoint: string, subnet: string)
    requires Free(device, NL) && Free(ip, NL) && Free(dns, NL)
    requires Free(serverKey, NL) && Free(endpoint, NL) && Free(subnet, NL)
    ensures DescribesClient(ClientConfig(device, ip, dns, serverKey, endpoint, subnet),
                            device, ip, dns, serverKey, endpoint, subnet)
  {
    hide Sections, ClientConfig, InterfaceLines, ServerLines, Values;
    ClientSections(device, ip, dns, serverKey, endpoint, subnet);
    InterfaceMeans(device, ip, dns);
    ServerMeans(serverKey, endpoint, subnet);
  }
}
