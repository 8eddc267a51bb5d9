/** The kernel awg-quick .conf text: the server-side printer (awg_server.go) and the
    parser the live peer sync uses (awg_peersync.go), and the theorem that ties them. */
module AwgConf {
  import opened Text

  datatype ServerPeer = ServerPeer(publicKey: string, allowedIPs: string, presharedKey: string)

  /** What splitAWGConf keeps of a [Peer] section. */
  datatype Peer = Peer(publicKey: string, allowedIPs: string)

  datatype Amnezia = Amnezia(jc: int, jmin: int, jmax: int, s1: int, s2: int, s3: int, s4: int,
                             h1: string, h2: string, h3: string, h4: string)

  /** Header-protection material; keyBase64 is None when the stored hex key does not convert. */
  datatype HeaderProtection = HeaderProtection(keyHex: string, keyBase64: Option<string>,
                                               contentPadding: string, rekeyAfter: string,
                                               randomTrailers: bool, disableCookies: bool)

  datatype Interface = Interface(privateKey: string, listenPort: int, tunnelAddress: string, mtu: int,
                                 amnezia: Option<Amnezia>, version: string,
                                 awg3: Option<HeaderProtection>,
                                 tunInterface: string, interfaceName: string)

  /** AWGServerConfParams: the interface parameters and the peers. */
  datatype Params = Params(iface: Interface, peers: seq<ServerPeer>)

  function Field(key: string, value: string): string {
    key + " = " + value
  }

  // ---- The lines the printer emits ----

  type Pair = (string, string)

  function Lines(fs: seq<Pair>): seq<string> {
    seq(|fs|, i requires 0 <= i < |fs| => Field(fs[i].0, fs[i].1))
  }

  function AmneziaFields(a: Amnezia, version: string): seq<Pair> {
    [("Jc", FormatInt(a.jc)), ("Jmin", FormatInt(a.jmin)), ("Jmax", FormatInt(a.jmax)),
     ("S1", FormatInt(a.s1)), ("S2", FormatInt(a.s2))]
    + (if version == "1.5" then [] else [("S3", FormatInt(a.s3)), ("S4", FormatInt(a.s4))])
    + (if a.h1 == "" then [] else [("H1", a.h1), ("H2", a.h2), ("H3", a.h3), ("H4", a.h4)])
  }

  function HeaderProtectionFields(m: HeaderProtection): seq<Pair> {
    match m.keyBase64
    case None => []
    case Some(key) =>
      [("HeaderProtectionKey", key)]
      + (if m.contentPadding == "" then [] else [("ContentPaddingAddition", m.contentPadding)])
      + (if m.rekeyAfter == "" then [] else [("RekeyAfterTime", m.rekeyAfter)])
      + (if m.randomTrailers then [("RandomTrailers", "on")] else [])
      + (if m.disableCookies then [("DisableCookies", "on")] else [])
  }

  function AcceptForward(from: string, to: string): seq<string> {
    ["iptables", "-C", "FORWARD", "-i", from, "-o", to, "-j", "ACCEPT", "2>/dev/null", "||",
     "iptables", "-A", "FORWARD", "-i", from, "-o", to, "-j"]
  }

  function DropForward(from: string, to: string): seq<string> {
    ["iptables", "-D", "FORWARD", "-i", from, "-o", to, "-j", "ACCEPT", "2>/dev/null", "||"]
  }

  function UpList(iface: string, tun: string): seq<string> {
    ["echo", "1", ">", "/proc/sys/net/" + "ipv4/ip_forward;", "sysctl", "-w",
     "net.ipv4.conf." + iface + ".rp_filter=0", "2>/dev/null;"]
    + AcceptForward(iface, tun) + ["ACCEPT;"] + AcceptForward(tun, iface) + ["ACCEPT"]
  }

  function PostUp(iface: string, tun: string): string {
    Join(UpList(iface, tun), " ")
  }

  function PostDown(iface: string, tun: string): string {
    Join(DropForward(iface, tun) + ["true;"] + DropForward(tun, iface) + ["true"], " ")
  }

  function TunFields(iface: string, tun: string): seq<Pair> {
    if tun == "" then [] else [("PostUp", PostUp(iface, tun)), ("PostDown", PostDown(iface, tun))]
  }

  function BaseFields(p: Interface): seq<Pair> {
    [("Address", if p.tunnelAddress == "" then "10.8.0.1/24" else p.tunnelAddress)]
    + (if p.listenPort > 0 then [("ListenPort", FormatInt(p.listenPort))] else [])
    + [("PrivateKey", p.privateKey), ("MTU", FormatInt(if p.mtu == 0 then 1420 else p.mtu))]
  }

  function InterfaceFields(p: Interface): seq<Pair> {
    BaseFields(p)
    + (match p.amnezia case None => [] case Some(a) => AmneziaFields(a, p.version))
    + (match p.awg3 case None => []
       case Some(m) => if m.keyHex == "" then [] else HeaderProtectionFields(m))
    + TunFields(if p.interfaceName == "" then "awg0" else p.interfaceName, p.tunInterface)
  }

  /** The interface section below its header. */
  function InterfaceLines(p: Interface): seq<string> {
    Lines(InterfaceFields(p))
  }

  function PeerLines(peer: ServerPeer): seq<string> {
    if peer.publicKey == "" then []
    else
      ["", "[Peer]", Field("PublicKey", peer.publicKey)]
      + (if peer.presharedKey == "" then [] else [Field("PresharedKey", peer.presharedKey)])
      + [Field("AllowedIPs", if peer.allowedIPs == "" then "10.8.0.2/32" else peer.allowedIPs)]
  }

  function AllPeerLines(peers: seq<ServerPeer>): seq<string> {
    if peers == [] then [] else AllPeerLines(peers[..|peers| - 1]) + PeerLines(peers[|peers| - 1])
  }

  function ConfLines(p: Params): seq<string> {
    ["[Interface]"] + InterfaceLines(p.iface) + AllPeerLines(p.peers)
  }

  // ---- The printer, writing to a growing buffer ----

  method WriteLines(b: string, lines: seq<string>) returns (out: string)
    ensures out == b + Unlines(lines)
  {
    out := b;
    assert lines[..0] == [];
    for i := 0 to |lines|
      invariant out == b + Unlines(lines[..i])
    {
      UnlinesConcat(lines[..i], [lines[i]]);
      assert lines[..i + 1] == lines[..i] + [lines[i]];
      assert Unlines([lines[i]]) == lines[i] + "\n";
      out := out + lines[i] + "\n";
    }
    assert lines[..|lines|] == lines;
  }

  method WritePeer(b: string, peer: ServerPeer) returns (out: string)
    ensures out == b + Unlines(PeerLines(peer))
  {
    hide *;
    out := b;
    if peer.publicKey == "" {
      NoPeerLines(peer);
      return;
    }
    PeerLinesUnfold(peer);
    out := WriteLines(out, ["", "[Peer]", Field("PublicKey", peer.publicKey)]);
    ghost var head := Unlines(["", "[Peer]", Field("PublicKey", peer.publicKey)]);
    ghost var psk := "";
    if peer.presharedKey != "" {
      out := WriteLines(out, [Field("PresharedKey", peer.presharedKey)]);
      psk := Unlines([Field("PresharedKey", peer.presharedKey)]);
    }
    var allowed := peer.allowedIPs;
    if allowed == "" {
      allowed := "10.8.0.2/32";
    }
    ghost var tail := Unlines([Field("AllowedIPs", allowed)]);
    assert b + head + "" == b + head;
    ConcatAssoc(b, head, psk);
    ConcatAssoc(b, head + psk, tail);
    out := WriteLines(out, [Field("AllowedIPs", allowed)]);
  }

  lemma {:induction false} NoPeerLines(peer: ServerPeer)
    requires peer.publicKey == ""
    ensures Unlines(PeerLines(peer)) == ""
  {
  }

  method WritePeers(b: string, peers: seq<ServerPeer>) returns (out: string)
    ensures out == b + Unlines(AllPeerLines(peers))
  {
    out := b;
    assert peers[..0] == [];
    for i := 0 to |peers|
      invariant out == b + Unlines(AllPeerLines(peers[..i]))
    {
      ghost var before := Unlines(AllPeerLines(peers[..i]));
      ghost var block := Unlines(PeerLines(peers[i]));
      out := WritePeer(out, peers[i]);
      PeerTextGrows(peers, i);
      ConcatAssoc(b, before, block);
    }
    assert peers[..|peers|] == peers;
  }

  lemma {:induction false} PeerTextGrows(peers: seq<ServerPeer>, i: nat)
    requires i < |peers|
    ensures Unlines(AllPeerLines(peers[..i + 1])) == Unlines(AllPeerLines(peers[..i])) + Unlines(PeerLines(peers[i]))
  {
    assert peers[..i + 1][..i] == peers[..i];
    UnlinesConcat(AllPeerLines(peers[..i]), PeerLines(peers[i]));
  }

  /** RenderServerAWGConf: the interface section, then one [Peer] per credentialed user. */
  method RenderServerConf(p: Params) returns (b: string)
    ensures b == Unlines(ConfLines(p))
    ensures PlainValues(p.iface) && PlainPeers(p.peers) ==> SaysAll(b, p)
  {
    b := WriteLines("", ["[Interface]"]);
    b := WriteLines(b, InterfaceLines(p.iface));
    b := WritePeers(b, p.peers);
    ConfTextByParts(["[Interface]"], InterfaceLines(p.iface), AllPeerLines(p.peers));
    hide SaysAll, InterfaceLines, AllPeerLines, PlainValues, PlainPeers;
    if PlainValues(p.iface) && PlainPeers(p.peers) {
      TextSaysAll(p);
    }
  }

  lemma {:induction false} ConfTextByParts(a: seq<string>, b: seq<string>, c: seq<string>)
    ensures "" + Unlines(a) + Unlines(b) + Unlines(c) == Unlines(a + b + c)
  {
    UnlinesConcat(a, b);
    UnlinesConcat(a + b, c);
  }

  lemma {:induction false} PeerLinesUnfold(peer: ServerPeer)
    requires peer.publicKey != ""
    ensures Unlines(PeerLines(peer))
         == Unlines(["", "[Peer]", Field("PublicKey", peer.publicKey)])
            + (if peer.presharedKey == "" then "" else Unlines([Field("PresharedKey", peer.presharedKey)]))
            + Unlines([Field("AllowedIPs", if peer.allowedIPs == "" then "10.8.0.2/32" else peer.allowedIPs)])
  {
    var a := ["", "[Peer]", Field("PublicKey", peer.publicKey)];
    var c := [Field("AllowedIPs", if peer.allowedIPs == "" then "10.8.0.2/32" else peer.allowedIPs)];
    if peer.presharedKey == "" {
      UnlinesConcat(a, c);
      assert PeerLines(peer) == a + c;
    } else {
      var m := [Field("PresharedKey", peer.presharedKey)];
      UnlinesConcat(a, m);
      UnlinesConcat(a + m, c);
    }
  }

  // ---- The parser ----

  datatype ParseState = ParseState(ifaceLines: seq<string>, peers: seq<Peer>, cur: Option<Peer>, inPeer: bool)

  function Flush(st: ParseState): ParseState {
    match st.cur
    case None => st
    case Some(p) => st.(peers := st.peers + [p], cur := None)
  }

  function SetField(cur: Peer, line: string): Peer {
    match Cut(line, '=')
    case None => cur
    case Some(kv) =>
      if Trim(kv.0) == "PublicKey" then cur.(publicKey := Trim(kv.1))
      else if Trim(kv.0) == "AllowedIPs" then cur.(allowedIPs := Trim(kv.1))
      else cur
  }

  function Step(st: ParseState, raw: string): ParseState {
    var line := Trim(raw);
    if line == "" then st
    else if line == "[Interface]" then st.(inPeer := false)
    else if line == "[Peer]" then Flush(st).(cur := Some(Peer("", "")), inPeer := true)
    else if st.inPeer then
      match st.cur
      case None => st
      case Some(p) => st.(cur := Some(SetField(p, line)))
    else st.(ifaceLines := st.ifaceLines + [line])
  }

  function Fold(st: ParseState, lines: seq<string>): ParseState
    decreases |lines|
  {
    if lines == [] then st else Fold(Step(st, lines[0]), lines[1..])
  }

  const START := ParseState([], [], None, false)

  /** What splitAWGConf returns: the normalized interface text and the peers. */
  function ParseConf(content: string): (string, seq<Peer>) {
    var st := Flush(Fold(START, Split(content, '\n')));
    (Join(st.ifaceLines, "\n"), st.peers)
  }

  /** splitAWGConf: one pass over the lines with the current peer kept in a variable. */
  method SplitConf(content: string) returns (iface: string, peers: seq<Peer>)
    ensures (iface, peers) == ParseConf(content)
  {
    var lines := Split(content, '\n');
    var ifaceLines: seq<string> := [];
    var cur: Option<Peer> := None;
    var inPeer := false;
    peers := [];
    assert lines[0..] == lines;
    for i := 0 to |lines|
      invariant Fold(ParseState(ifaceLines, peers, cur, inPeer), lines[i..]) == Fold(START, lines)
    {
      assert lines[i..][1..] == lines[i + 1..];
      var line := Trim(lines[i]);
      if line == "" {
        continue;
      }
      if line == "[Interface]" {
        inPeer := false;
      } else if line == "[Peer]" {
        if cur.Some? {
          peers := peers + [cur.value];
        }
        cur := Some(Peer("", ""));
        inPeer := true;
      } else if inPeer {
        if cur.Some? {
          cur := Some(SetField(cur.value, line));
        }
      } else {
        ifaceLines := ifaceLines + [line];
      }
    }
    if cur.Some? {
      peers := peers + [cur.value];
    }
    iface := Join(ifaceLines, "\n");
  }

  // ---- Printer and parser meet ----

  predicate PlainValues(p: Interface) {
    && Free(p.privateKey, '\n') && Free(p.tunnelAddress, '\n')
    && Free(p.tunInterface, '\n') && Free(p.interfaceName, '\n')
    && (p.amnezia.Some? ==>
          Free(p.amnezia.value.h1, '\n') && Free(p.amnezia.value.h2, '\n')
          && Free(p.amnezia.value.h3, '\n') && Free(p.amnezia.value.h4, '\n'))
    && (p.awg3.Some? ==>
          && (p.awg3.value.keyBase64.Some? ==> Free(p.awg3.value.keyBase64.value, '\n'))
          && Free(p.awg3.value.contentPadding, '\n') && Free(p.awg3.value.rekeyAfter, '\n'))
  }

  predicate PlainPeers(peers: seq<ServerPeer>) {
    forall i :: 0 <= i < |peers| ==>
      Free(peers[i].publicKey, '\n') && Free(peers[i].allowedIPs, '\n') && Free(peers[i].presharedKey, '\n')
  }

  /** A line of the interface section: no newline, and it cannot be read as a header or a blank. */
  predicate PlainLine(line: string) {
    && Free(line, '\n') && |line| > 0 && line[0] != '[' && !IsSpace(line[0])
  }

  function TrimAll(lines: seq<string>): seq<string> {
    seq(|lines|, i requires 0 <= i < |lines| => Trim(lines[i]))
  }

  function AsPrinted(peer: ServerPeer): Peer {
    Peer(Trim(peer.publicKey), Trim(if peer.allowedIPs == "" then "10.8.0.2/32" else peer.allowedIPs))
  }

  /** The credentialed peers in order, as a reader of the file sees them. */
  function Credentialed(peers: seq<ServerPeer>): seq<Peer> {
    if peers == [] then []
    else
      var last := peers[|peers| - 1];
      Credentialed(peers[..|peers| - 1]) + (if last.publicKey == "" then [] else [AsPrinted(last)])
  }

  lemma {:induction false} FieldIsPlain(key: string, value: string)
    requires PlainLine(key) && Free(value, '\n')
    ensures PlainLine(Field(key, value))
  {
    assert Field(key, value)[0] == key[0];
  }

  /** A key of letters and digits. */
  predicate Word(key: string) {
    |key| > 0 && forall i :: 0 <= i < |key| ==> 'A' <= key[i] <= 'Z' || 'a' <= key[i] <= 'z' || '0' <= key[i] <= '9'
  }

  predicate PlainPairs(fs: seq<Pair>) {
    forall i :: 0 <= i < |fs| ==> Word(fs[i].0) && Free(fs[i].1, '\n')
  }

  lemma {:induction false} WordIsPlain(key: string)
    requires Word(key)
    ensures PlainLine(key) && Free(key, '=') && Trim(key) == key
  {
    assert TrimLeft(key) == key && TrimRight(key) == key;
  }

  lemma {:induction false} PairsPlain(fs: seq<Pair>)
    requires PlainPairs(fs)
    ensures AllPlain(Lines(fs))
  {
    forall i | 0 <= i < |fs|
      ensures PlainLine(Lines(fs)[i])
    {
      WordIsPlain(fs[i].0);
      FieldIsPlain(fs[i].0, fs[i].1);
    }
  }

  lemma {:induction false} TunPairs(iface: string, tun: string)
    requires Free(iface, '\n') && Free(tun, '\n')
    ensures PlainPairs(TunFields(iface, tun))
  {
    AcceptFree(iface, tun);
    AcceptFree(tun, iface);
    if tun != "" {
      PostUpFree(iface, tun);
      JoinFree(DropForward(iface, tun) + ["true;"] + DropForward(tun, iface) + ["true"], " ", '\n');
      hide PostUp, DropForward, Join;
    }
  }

  lemma {:induction false} AcceptFree(a: string, b: string)
    requires Free(a, '\n') && Free(b, '\n')
    ensures forall i :: 0 <= i < |AcceptForward(a, b)| ==> Free(AcceptForward(a, b)[i], '\n')
    ensures forall i :: 0 <= i < |DropForward(a, b)| ==> Free(DropForward(a, b)[i], '\n')
  {
  }

  lemma {:induction false} PostUpFree(iface: string, tun: string)
    requires Free(iface, '\n') && Free(tun, '\n')
    ensures Free(PostUp(iface, tun), '\n')
  {
    AcceptFree(iface, tun);
    AcceptFree(tun, iface);
    var head := ["echo", "1", ">", "/proc/sys/net/" + "ipv4/ip_forward;", "sysctl", "-w",
                 "net.ipv4.conf." + iface + ".rp_filter=0", "2>/dev/null;"];
    assert Free("/proc/sys/net/", '\n') && Free("ipv4/ip_forward;", '\n');
    assert Free("net.ipv4.conf.", '\n') && Free(".rp_filter=0", '\n');
    assert Free(head[6], '\n');
    JoinFree(head + AcceptForward(iface, tun) + ["ACCEPT;"] + AcceptForward(tun, iface) + ["ACCEPT"], " ", '\n');
  }

  lemma {:induction false} PlainPairsConcat(a: seq<Pair>, b: seq<Pair>)
    requires PlainPairs(a) && PlainPairs(b)
    ensures PlainPairs(a + b)
  {
  }

  lemma {:induction false} AmneziaPairs(a: Amnezia, version: string)
    requires Free(a.h1, '\n') && Free(a.h2, '\n') && Free(a.h3, '\n') && Free(a.h4, '\n')
    ensures PlainPairs(AmneziaFields(a, version))
  {
    assert Word("Jc") && Word("Jmin") && Word("Jmax") && Word("S1") && Word("S2") && Word("S3") && Word("S4");
    assert Word("H1") && Word("H2") && Word("H3") && Word("H4");
    hide Word;
  }

  lemma {:induction false} HeaderProtectionPairs(m: HeaderProtection)
    requires m.keyBase64.Some? ==> Free(m.keyBase64.value, '\n')
    requires Free(m.contentPadding, '\n') && Free(m.rekeyAfter, '\n')
    ensures PlainPairs(HeaderProtectionFields(m))
  {
    HeaderProtectionWords();
    hide Word;
  }

  lemma {:induction false} HeaderProtectionWords()
    ensures Word("HeaderProtectionKey") && Word("ContentPaddingAddition") && Word("RekeyAfterTime")
    ensures Word("RandomTrailers") && Word("DisableCookies") && Free("on", '\n')
  {
  }

  ghost predicate AllPlain(lines: seq<string>) {
    forall i :: 0 <= i < |lines| ==> PlainLine(lines[i])
  }

  lemma {:induction false} InterfacePairs(p: Interface)
    requires PlainValues(p)
    ensures PlainPairs(InterfaceFields(p))
  {
    var iface := if p.interfaceName == "" then "awg0" else p.interfaceName;
    var base := BaseFields(p);
    var amnezia := match p.amnezia case None => [] case Some(a) => AmneziaFields(a, p.version);
    var awg3 := match p.awg3 case None => []
                case Some(m) => if m.keyHex == "" then [] else HeaderProtectionFields(m);
    assert PlainPairs(base);
    if p.amnezia.Some? {
      AmneziaPairs(p.amnezia.value, p.version);
    }
    if p.awg3.Some? {
      HeaderProtectionPairs(p.awg3.value);
    }
    TunPairs(iface, p.tunInterface);
    hide Word, BaseFields, AmneziaFields, HeaderProtectionFields, TunFields;
    PlainPairsConcat(base, amnezia);
    PlainPairsConcat(base + amnezia, awg3);
    PlainPairsConcat(base + amnezia + awg3, TunFields(iface, p.tunInterface));
  }

  lemma {:induction false} InterfaceLinesPlain(p: Interface)
    requires PlainValues(p)
    ensures AllPlain(InterfaceLines(p))
  {
    InterfacePairs(p);
    PairsPlain(InterfaceFields(p));
  }

  lemma {:induction false} FoldConcat(st: ParseState, a: seq<string>, b: seq<string>)
    ensures Fold(st, a + b) == Fold(Fold(st, a), b)
    decreases |a|
  {
    if a == [] {
      assert a + b == b;
    } else {
      FoldConcat(Step(st, a[0]), a[1..], b);
      assert (a + b)[1..] == a[1..] + b;
    }
  }

  lemma {:induction false} PlainLineStep(st: ParseState, line: string)
    requires PlainLine(line) && !st.inPeer
    ensures Step(st, line) == st.(ifaceLines := st.ifaceLines + [Trim(line)])
  {
    assert TrimLeft(line) == line;
    assert line == [line[0]] + line[1..];
    TrimRightConcat([line[0]], line[1..]);
    assert TrimRight([line[0]]) == [line[0]];
    assert Trim(line)[0] == line[0];
  }

  lemma {:induction false} FoldInterface(st: ParseState, lines: seq<string>)
    requires !st.inPeer
    requires forall i :: 0 <= i < |lines| ==> PlainLine(lines[i])
    ensures Fold(st, lines) == st.(ifaceLines := st.ifaceLines + TrimAll(lines))
    decreases |lines|
  {
    if lines == [] {
      assert st.ifaceLines + TrimAll(lines) == st.ifaceLines;
    } else {
      PlainLineStep(st, lines[0]);
      var st' := Step(st, lines[0]);
      FoldInterface(st', lines[1..]);
      assert st'.ifaceLines + TrimAll(lines[1..]) == st.ifaceLines + TrimAll(lines);
    }
  }

  /** Reading back "key = value": the value comes out trimmed, '=' inside it included. */
  lemma {:induction false} FieldReadsBack(key: string, value: string)
    requires |key| > 0 && Free(key, '=') && Trim(key) == key && !IsSpace(key[0])
    ensures Trim(Field(key, value)) != "" && Trim(Field(key, value))[0] == key[0]
    ensures exists rest :: Cut(Trim(Field(key, value)), '=') == Some((key + " ", rest)) && Trim(rest) == Trim(value)
    ensures Trim(key + " ") == key
  {
    var head := key + " ";
    var tail := " " + value;
    assert Field(key, value) == head + ['='] + tail;
    assert TrimLeft(Field(key, value)) == Field(key, value);
    TrimRightConcat(head + ['='], tail);
    TrimRightConcat(head, ['=']);
    assert TrimRight(['=']) == ['='];
    var rest := TrimRight(tail);
    assert Trim(Field(key, value)) == head + ['='] + rest;
    CutHead(head, rest, '=');
    TrimAfterRight(tail);
    assert TrimLeft(tail) == TrimLeft(value) by { assert tail[1..] == value; }
    TrimRightConcat(key, " ");
    assert TrimRight(" ") == "" by { assert " "[..0] == ""; }
    assert TrimLeft(head) == head;
  }

  lemma {:induction false} PeerFieldStep(st: ParseState, key: string, value: string, cur: Peer)
    requires st.inPeer && st.cur == Some(cur)
    requires key == "PublicKey" || key == "AllowedIPs" || key == "PresharedKey"
    ensures Step(st, Field(key, value)) ==
            st.(cur := Some(if key == "PublicKey" then cur.(publicKey := Trim(value))
                            else if key == "AllowedIPs" then cur.(allowedIPs := Trim(value))
                            else cur))
  {
    assert Free("PublicKey", '=') && Free("AllowedIPs", '=') && Free("PresharedKey", '=');
    assert TrimLeft(key) == key && TrimRight(key) == key;
    FieldReadsBack(key, value);
    hide Trim, Cut, Field;
    var line := Trim(Field(key, value));
    assert line[0] != '[';
    var rest :| Cut(line, '=') == Some((key + " ", rest)) && Trim(rest) == Trim(value);
  }

  lemma {:induction false} PeerBlock(st: ParseState, peer: ServerPeer)
    requires peer.publicKey != ""
    ensures Fold(st, PeerLines(peer)) == Flush(st).(cur := Some(AsPrinted(peer)), inPeer := true)
  {
    var pub := Field("PublicKey", peer.publicKey);
    var psk := Field("PresharedKey", peer.presharedKey);
    var allowed := Field("AllowedIPs", if peer.allowedIPs == "" then "10.8.0.2/32" else peer.allowedIPs);
    var st1 := Flush(st).(cur := Some(Peer("", "")), inPeer := true);
    assert Trim("") == "" && Trim("[Peer]") == "[Peer]";
    assert Step(Step(st, ""), "[Peer]") == st1;
    PeerFieldStep(st1, "PublicKey", peer.publicKey, Peer("", ""));
    var st2 := Step(st1, pub);
    FoldConcat(st, ["", "[Peer]", pub], PeerLines(peer)[3..]);
    assert PeerLines(peer) == ["", "[Peer]", pub] + PeerLines(peer)[3..];
    FoldThree(st, "", "[Peer]", pub);
    var cur := st2.cur.value;
    PeerFieldStep(st2, "PresharedKey", peer.presharedKey, cur);
    PeerFieldStep(st2, "AllowedIPs", if peer.allowedIPs == "" then "10.8.0.2/32" else peer.allowedIPs, cur);
    if peer.presharedKey == "" {
      assert PeerLines(peer)[3..] == [allowed];
      assert Fold(st2, [allowed]) == Step(st2, allowed);
    } else {
      assert PeerLines(peer)[3..] == [psk, allowed];
      assert [psk, allowed][1..] == [allowed];
      assert Fold(st2, [psk, allowed]) == Fold(Step(st2, psk), [allowed]) == Step(st2, allowed);
    }
  }

  lemma {:induction false} FoldThree(st: ParseState, a: string, b: string, c: string)
    ensures Fold(st, [a, b, c]) == Step(Step(Step(st, a), b), c)
  {
    var s1 := Step(st, a);
    var s2 := Step(s1, b);
    assert [a, b, c][1..] == [b, c] && [b, c][1..] == [c] && [c][1..] == [];
    assert Fold(st, [a, b, c]) == Fold(s1, [b, c]);
    assert Fold(s1, [b, c]) == Fold(s2, [c]);
    assert Fold(s2, [c]) == Step(s2, c);
  }

  lemma {:induction false} PeerBlockFlushed(st: ParseState, peer: ServerPeer)
    ensures Flush(Fold(st, PeerLines(peer))).peers
         == Flush(st).peers + (if peer.publicKey == "" then [] else [AsPrinted(peer)])
    ensures Fold(st, PeerLines(peer)).ifaceLines == st.ifaceLines
  {
    if peer.publicKey != "" {
      PeerBlock(st, peer);
    }
  }

  lemma {:induction false} FoldNone(st: ParseState)
    ensures Fold(st, []) == st
  {
  }

  lemma {:induction false} FoldPeers(st: ParseState, peers: seq<ServerPeer>)
    ensures Flush(Fold(st, AllPeerLines(peers))).peers == Flush(st).peers + Credentialed(peers)
    ensures Fold(st, AllPeerLines(peers)).ifaceLines == st.ifaceLines
  {
    hide Fold, Flush, PeerLines, AsPrinted;
    if peers == [] {
      FoldNone(st);
      assert Flush(st).peers + Credentialed(peers) == Flush(st).peers;
    } else {
      var init, last := peers[..|peers| - 1], peers[|peers| - 1];
      FoldPeers(st, init);
      FoldConcat(st, AllPeerLines(init), PeerLines(last));
      PeerBlockFlushed(Fold(st, AllPeerLines(init)), last);
    }
  }

  lemma {:induction false} PeerLinesFree(peer: ServerPeer)
    requires Free(peer.publicKey, '\n') && Free(peer.allowedIPs, '\n') && Free(peer.presharedKey, '\n')
    ensures AllFree(PeerLines(peer), '\n')
  {
    FieldIsPlain("PublicKey", peer.publicKey);
    FieldIsPlain("PresharedKey", peer.presharedKey);
    FieldIsPlain("AllowedIPs", if peer.allowedIPs == "" then "10.8.0.2/32" else peer.allowedIPs);
  }

  lemma {:induction false} AllPeerLinesFree(peers: seq<ServerPeer>)
    requires PlainPeers(peers)
    ensures AllFree(AllPeerLines(peers), '\n')
  {
    if peers != [] {
      AllPeerLinesFree(peers[..|peers| - 1]);
      PeerLinesFree(peers[|peers| - 1]);
      AllFreeConcat(AllPeerLines(peers[..|peers| - 1]), PeerLines(peers[|peers| - 1]), '\n');
    }
  }

  /** Splitting a rendered conf returns exactly the credentialed peers, in order, and the
      interface lines. The only demand on the values is that none holds a newline. */
  lemma {:induction false} PrintThenParse(p: Params)
    requires PlainValues(p.iface) && PlainPeers(p.peers)
    ensures ParseConf(Unlines(ConfLines(p)))
         == (Join(TrimAll(InterfaceLines(p.iface)), "\n"), Credentialed(p.peers))
  {
    InterfaceLinesPlain(p.iface);
    ParseLines(InterfaceLines(p.iface), p.peers);
  }

  lemma {:induction false} ParseLines(iface: seq<string>, peers: seq<ServerPeer>)
    requires AllPlain(iface) && PlainPeers(peers)
    ensures ParseConf(Unlines(["[Interface]"] + iface + AllPeerLines(peers)))
         == (Join(TrimAll(iface), "\n"), Credentialed(peers))
  {
    var lines := ["[Interface]"] + iface + AllPeerLines(peers);
    ConfLinesFree(iface, peers);
    SplitUnlines(lines);
    FoldWhole(iface, peers);
  }

  lemma {:induction false} ConfLinesFree(iface: seq<string>, peers: seq<ServerPeer>)
    requires AllPlain(iface) && PlainPeers(peers)
    ensures AllFree(["[Interface]"] + iface + AllPeerLines(peers), '\n')
  {
    AllPeerLinesFree(peers);
    assert Free("[Interface]", '\n');
  }

  lemma {:induction false} FoldWhole(iface: seq<string>, peers: seq<ServerPeer>)
    requires AllPlain(iface)
    ensures var st := Flush(Fold(START, ["[Interface]"] + iface + AllPeerLines(peers) + [""]));
            st.ifaceLines == TrimAll(iface) && st.peers == Credentialed(peers)
  {
    var head := ["[Interface]"] + iface;
    FoldHead(iface);
    FoldConcat(START, head, AllPeerLines(peers));
    FoldPeers(Fold(START, head), peers);
    FoldConcat(START, head + AllPeerLines(peers), [""]);
    BlankLineFolds(Fold(START, head + AllPeerLines(peers)));
  }

  lemma {:induction false} BlankLineFolds(st: ParseState)
    ensures Fold(st, [""]) == st
  {
    assert [""][1..] == [];
    assert Step(st, "") == st;
  }

  lemma {:induction false} FoldHead(iface: seq<string>)
    requires AllPlain(iface)
    ensures Fold(START, ["[Interface]"] + iface) == ParseState(TrimAll(iface), [], None, false)
  {
    FoldConcat(START, ["[Interface]"], iface);
    HeaderStep();
    FoldInterface(START, iface);
    assert START.ifaceLines + TrimAll(iface) == TrimAll(iface);
  }

  lemma {:induction false} HeaderStep()
    ensures Fold(START, ["[Interface]"]) == START
  {
    assert TrimLeft("[Interface]") == "[Interface]" == TrimRight("[Interface]");
    assert ["[Interface]"][1..] == [];
  }

  /** The normalized interface text does not depend on the peers, so adding or removing a user
      never looks like an interface change to the peer sync. */
  lemma {:induction false} InterfaceIndependentOfPeers(p: Params, others: seq<ServerPeer>)
    requires PlainValues(p.iface) && PlainPeers(p.peers) && PlainPeers(others)
    ensures ParseConf(Unlines(ConfLines(p))).0 == ParseConf(Unlines(ConfLines(p.(peers := others)))).0
  {
    PrintThenParse(p);
    PrintThenParse(p.(peers := others));
  }

  // ---- What the rendered text says ----

  /** Any reader of the file: a section at a time, each line cut at its first '='. */
  datatype Reading = Reading(iface: map<string, string>, peers: seq<map<string, string>>)
  {
    function Put(key: string, value: string): Reading {
      if peers == [] then Reading(iface[key := value], [])
      else Reading(iface, peers[..|peers| - 1] + [peers[|peers| - 1][key := value]])
    }
  }

  function ReadLine(r: Reading, raw: string): Reading {
    var line := Trim(raw);
    if line == "" || line == "[Interface]" then r
    else if line == "[Peer]" then Reading(r.iface, r.peers + [map[]])
    else
      match Cut(line, '=')
      case None => r
      case Some(kv) => r.Put(Trim(kv.0), Trim(kv.1))
  }

  function ReadLines(r: Reading, lines: seq<string>): Reading
    decreases |lines|
  {
    if lines == [] then r else ReadLines(ReadLine(r, lines[0]), lines[1..])
  }

  function ReadConf(content: string): Reading {
    ReadLines(Reading(map[], []), Split(content, '\n'))
  }

  function Value(m: map<string, string>, key: string): Option<string> {
    if key in m then Some(m[key]) else None
  }

  function Present(b: bool, value: string): Option<string> {
    if b then Some(Trim(value)) else None
  }

  /** What the interface section is to say, key by key. */
  function Promised(p: Interface, key: string): Option<string> {
    if TunPromised(p, key).Some? then TunPromised(p, key)
    else if p.awg3.Some? && HeaderProtectionPromised(p.awg3.value, key).Some? then HeaderProtectionPromised(p.awg3.value, key)
    else if p.amnezia.Some? && AmneziaPromised(p.amnezia.value, p.version, key).Some? then AmneziaPromised(p.amnezia.value, p.version, key)
    else BasePromised(p, key)
  }

  function BasePromised(p: Interface, key: string): Option<string> {
    if key == "PrivateKey" then Present(true, p.privateKey)
    else if key == "Address" then Present(true, if p.tunnelAddress == "" then "10.8.0.1/24" else p.tunnelAddress)
    else if key == "MTU" then Present(true, if p.mtu == 0 then "1420" else FormatInt(p.mtu))
    else if key == "ListenPort" then Present(p.listenPort > 0, FormatInt(p.listenPort))
    else None
  }

  function AmneziaPromised(a: Amnezia, version: string, key: string): Option<string> {
    if key == "Jc" then Present(true, FormatInt(a.jc))
    else if key == "Jmin" then Present(true, FormatInt(a.jmin))
    else if key == "Jmax" then Present(true, FormatInt(a.jmax))
    else if key == "S1" then Present(true, FormatInt(a.s1))
    else if key == "S2" then Present(true, FormatInt(a.s2))
    else if key == "S3" then Present(version != "1.5", FormatInt(a.s3))
    else if key == "S4" then Present(version != "1.5", FormatInt(a.s4))
    else if key == "H1" then Present(a.h1 != "", a.h1)
    else if key == "H2" then Present(a.h1 != "", a.h2)
    else if key == "H3" then Present(a.h1 != "", a.h3)
    else if key == "H4" then Present(a.h1 != "", a.h4)
    else None
  }

  /** Only material whose key converts says anything. */
  function HeaderProtectionPromised(m: HeaderProtection, key: string): Option<string> {
    if m.keyHex == "" || m.keyBase64.None? then None
    else if key == "HeaderProtectionKey" then Present(true, m.keyBase64.value)
    else if key == "ContentPaddingAddition" then Present(m.contentPadding != "", m.contentPadding)
    else if key == "RekeyAfterTime" then Present(m.rekeyAfter != "", m.rekeyAfter)
    else if key == "RandomTrailers" then Present(m.randomTrailers, "on")
    else if key == "DisableCookies" then Present(m.disableCookies, "on")
    else None
  }

  function TunPromised(p: Interface, key: string): Option<string> {
    var iface := if p.interfaceName == "" then "awg0" else p.interfaceName;
    if key == "PostUp" then Present(p.tunInterface != "", PostUp(iface, p.tunInterface))
    else if key == "PostDown" then Present(p.tunInterface != "", PostDown(iface, p.tunInterface))
    else None
  }

  /** What a peer section is to say. */
  function PeerPromised(peer: ServerPeer, key: string): Option<string> {
    if key == "PublicKey" then Present(true, peer.publicKey)
    else if key == "PresharedKey" then Present(peer.presharedKey != "", peer.presharedKey)
    else if key == "AllowedIPs" then Present(true, if peer.allowedIPs == "" then "10.8.0.2/32" else peer.allowedIPs)
    else None
  }

  /** The last value given for a key. */
  function Lookup(fs: seq<Pair>, key: string): Option<string> {
    if fs == [] then None
    else if fs[|fs| - 1].0 == key then Some(Trim(fs[|fs| - 1].1))
    else Lookup(fs[..|fs| - 1], key)
  }

  lemma {:induction false} LookupConcat(a: seq<Pair>, b: seq<Pair>, key: string)
    ensures Lookup(a + b, key) == if Lookup(b, key).Some? then Lookup(b, key) else Lookup(a, key)
  {
    if b == [] {
      assert a + b == a;
    } else {
      assert (a + b)[..|a + b| - 1] == a + b[..|b| - 1];
      LookupConcat(a, b[..|b| - 1], key);
    }
  }

  lemma {:induction false} LookupOne(k: string, v: string, key: string)
    ensures Lookup([(k, v)], key) == if key == k then Some(Trim(v)) else None
    ensures Lookup([], key) == None
  {
    assert [(k, v)][..0] == [];
  }

  lemma {:induction false} LookupTwo(a: Pair, b: Pair, key: string)
    ensures Lookup([a, b], key) == if key == b.0 then Some(Trim(b.1)) else if key == a.0 then Some(Trim(a.1)) else None
  {
    LookupOne(a.0, a.1, key);
    LookupOne(b.0, b.1, key);
    LookupConcat([a], [b], key);
    assert [a] + [b] == [a, b];
  }

  lemma {:induction false} LookupFour(a: Pair, b: Pair, c: Pair, d: Pair, key: string)
    ensures Lookup([a, b, c, d], key)
         == if key == d.0 then Some(Trim(d.1)) else if key == c.0 then Some(Trim(c.1))
            else if key == b.0 then Some(Trim(b.1)) else if key == a.0 then Some(Trim(a.1)) else None
  {
    LookupTwo(a, b, key);
    LookupTwo(c, d, key);
    LookupConcat([a, b], [c, d], key);
    assert [a, b] + [c, d] == [a, b, c, d];
    hide Lookup;
  }

  lemma {:induction false} BaseLookup(p: Interface, key: string)
    ensures Lookup(BaseFields(p), key) == BasePromised(p, key)
  {
    var address := ("Address", if p.tunnelAddress == "" then "10.8.0.1/24" else p.tunnelAddress);
    var port := if p.listenPort > 0 then [("ListenPort", FormatInt(p.listenPort))] else [];
    var rest := [("PrivateKey", p.privateKey), ("MTU", FormatInt(if p.mtu == 0 then 1420 else p.mtu))];
    LookupOne(address.0, address.1, key);
    LookupOne("ListenPort", FormatInt(p.listenPort), key);
    LookupTwo(rest[0], rest[1], key);
    LookupConcat([address], port, key);
    LookupConcat([address] + port, rest, key);
    DefaultMtu();
    hide Lookup, Trim, FormatInt;
  }

  lemma {:induction false} DefaultMtu()
    ensures FormatInt(1420) == "1420"
  {
    assert Itoa(1) == "1";
    assert Itoa(14) == "14";
    assert Itoa(142) == "142";
  }

  lemma {:induction false} AmneziaLookup(a: Amnezia, version: string, key: string)
    ensures Lookup(AmneziaFields(a, version), key) == AmneziaPromised(a, version, key)
  {
    var junk := [("Jc", FormatInt(a.jc)), ("Jmin", FormatInt(a.jmin)), ("Jmax", FormatInt(a.jmax)), ("S1", FormatInt(a.s1))];
    var s2 := ("S2", FormatInt(a.s2));
    var s34 := if version == "1.5" then [] else [("S3", FormatInt(a.s3)), ("S4", FormatInt(a.s4))];
    var h := if a.h1 == "" then [] else [("H1", a.h1), ("H2", a.h2), ("H3", a.h3), ("H4", a.h4)];
    LookupFour(junk[0], junk[1], junk[2], junk[3], key);
    LookupOne(s2.0, s2.1, key);
    LookupTwo(("S3", FormatInt(a.s3)), ("S4", FormatInt(a.s4)), key);
    LookupFour(("H1", a.h1), ("H2", a.h2), ("H3", a.h3), ("H4", a.h4), key);
    LookupConcat(junk, [s2], key);
    LookupConcat(junk + [s2], s34, key);
    LookupConcat(junk + [s2] + s34, h, key);
    assert AmneziaFields(a, version) == junk + [s2] + s34 + h;
    hide Lookup, Trim, FormatInt, AmneziaFields;
  }

  lemma {:induction false} HeaderProtectionLookup(m: HeaderProtection, key: string)
    ensures Lookup(if m.keyHex == "" then [] else HeaderProtectionFields(m), key) == HeaderProtectionPromised(m, key)
  {
    LookupOne("", "", key);
    if m.keyHex != "" && m.keyBase64.Some? {
      var hp := [("HeaderProtectionKey", m.keyBase64.value)];
      var pad := if m.contentPadding == "" then [] else [("ContentPaddingAddition", m.contentPadding)];
      var rekey := if m.rekeyAfter == "" then [] else [("RekeyAfterTime", m.rekeyAfter)];
      var trail := if m.randomTrailers then [("RandomTrailers", "on")] else [];
      var cookies := if m.disableCookies then [("DisableCookies", "on")] else [];
      LookupOne("HeaderProtectionKey", m.keyBase64.value, key);
      LookupOne("ContentPaddingAddition", m.contentPadding, key);
      LookupOne("RekeyAfterTime", m.rekeyAfter, key);
      LookupOne("RandomTrailers", "on", key);
      LookupOne("DisableCookies", "on", key);
      LookupConcat(hp, pad, key);
      LookupConcat(hp + pad, rekey, key);
      LookupConcat(hp + pad + rekey, trail, key);
      LookupConcat(hp + pad + rekey + trail, cookies, key);
      hide Lookup, Trim;
    }
  }

  lemma {:induction false} InterfaceLookup(p: Interface, key: string)
    ensures Lookup(InterfaceFields(p), key) == Promised(p, key)
  {
    var amnezia := match p.amnezia case None => [] case Some(a) => AmneziaFields(a, p.version);
    var awg3 := match p.awg3 case None => []
                case Some(m) => if m.keyHex == "" then [] else HeaderProtectionFields(m);
    var iface := if p.interfaceName == "" then "awg0" else p.interfaceName;
    var tun := TunFields(iface, p.tunInterface);
    BaseLookup(p, key);
    if p.amnezia.Some? {
      AmneziaLookup(p.amnezia.value, p.version, key);
    }
    if p.awg3.Some? {
      HeaderProtectionLookup(p.awg3.value, key);
    }
    LookupOne("", "", key);
    LookupTwo(("PostUp", PostUp(iface, p.tunInterface)), ("PostDown", PostDown(iface, p.tunInterface)), key);
    LookupConcat(BaseFields(p), amnezia, key);
    LookupConcat(BaseFields(p) + amnezia, awg3, key);
    LookupConcat(BaseFields(p) + amnezia + awg3, tun, key);
    hide Lookup, Trim, FormatInt, BaseFields, AmneziaFields, HeaderProtectionFields, PostUp, PostDown,
         BasePromised, AmneziaPromised, HeaderProtectionPromised;
  }

  // ---- The reader on the printed lines ----

  lemma {:induction false} ReadConcat(r: Reading, a: seq<string>, b: seq<string>)
    ensures ReadLines(r, a + b) == ReadLines(ReadLines(r, a), b)
    decreases |a|
  {
    if a == [] {
      assert a + b == b;
    } else {
      assert (a + b)[1..] == a[1..] + b;
      ReadConcat(ReadLine(r, a[0]), a[1..], b);
    }
  }

  lemma {:induction false} FieldRead(r: Reading, key: string, value: string)
    requires Word(key)
    ensures ReadLine(r, Field(key, value)) == r.Put(key, Trim(value))
  {
    WordIsPlain(key);
    FieldReadsBack(key, value);
    hide Trim, Cut, Field;
    var line := Trim(Field(key, value));
    assert line[0] != '[';
    var rest :| Cut(line, '=') == Some((key + " ", rest)) && Trim(rest) == Trim(value);
  }

  lemma {:induction false} FieldsRead(r: Reading, fs: seq<Pair>)
    requires r.peers == [] && PlainPairs(fs)
    ensures var t := ReadLines(r, Lines(fs));
            && t.peers == []
            && forall key :: Value(t.iface, key) == if Lookup(fs, key).Some? then Lookup(fs, key) else Value(r.iface, key)
  {
    if fs != [] {
      var init, last := fs[..|fs| - 1], fs[|fs| - 1];
      FieldsRead(r, init);
      assert Lines(fs) == Lines(init) + [Field(last.0, last.1)];
      hide Lines, Trim, Field;
      ReadConcat(r, Lines(init), [Field(last.0, last.1)]);
      FieldRead(ReadLines(r, Lines(init)), last.0, last.1);
      ReadOne(ReadLines(r, Lines(init)), Field(last.0, last.1));
    }
  }

  lemma {:induction false} ReadOne(r: Reading, line: string)
    ensures ReadLines(r, [line]) == ReadLine(r, line) && ReadLines(r, []) == r
  {
    assert [line][1..] == [];
  }

  /** The last section says what the peer was given, and nothing else. */
  ghost predicate SaysPeer(m: map<string, string>, peer: ServerPeer) {
    forall key :: Value(m, key) == PeerPromised(peer, key)
  }

  lemma {:induction false} HeadersRead(r: Reading)
    ensures ReadLine(r, "") == r && ReadLine(r, "[Interface]") == r && ReadLine(r, "[Peer]") == Reading(r.iface, r.peers + [map[]])
  {
    assert Trim("") == "" && Trim("[Peer]") == "[Peer]" && Trim("[Interface]") == "[Interface]";
  }

  /** A new section filled with the fields of one peer. */
  function PeerSection(r: Reading, peer: ServerPeer): Reading {
    var start := Reading(r.iface, r.peers + [map[]]).Put("PublicKey", Trim(peer.publicKey));
    var middle := if peer.presharedKey == "" then start else start.Put("PresharedKey", Trim(peer.presharedKey));
    middle.Put("AllowedIPs", Trim(if peer.allowedIPs == "" then "10.8.0.2/32" else peer.allowedIPs))
  }

  lemma {:induction false} SectionSays(r: Reading, peer: ServerPeer)
    ensures var t := PeerSection(r, peer);
            t.iface == r.iface && |t.peers| == |r.peers| + 1 && t.peers[..|r.peers|] == r.peers && SaysPeer(t.peers[|r.peers|], peer)
  {
    hide Trim;
  }

  lemma {:induction false} PeerWords()
    ensures Word("PublicKey") && Word("PresharedKey") && Word("AllowedIPs")
  {
  }

  lemma {:induction false} PeerRead(r: Reading, peer: ServerPeer)
    requires peer.publicKey != ""
    ensures ReadLines(r, PeerLines(peer)) == PeerSection(r, peer)
  {
    HeadersRead(r);
    PeerWords();
    hide Word, Trim, ReadLine, ReadLines, Field;
    var allowed := if peer.allowedIPs == "" then "10.8.0.2/32" else peer.allowedIPs;
    var psk := if peer.presharedKey == "" then [] else [Field("PresharedKey", peer.presharedKey)];
    var start := ["", "[Peer]", Field("PublicKey", peer.publicKey)];
    var r0 := Reading(r.iface, r.peers + [map[]]);
    var r1 := r0.Put("PublicKey", Trim(peer.publicKey));
    var r2 := if peer.presharedKey == "" then r1 else r1.Put("PresharedKey", Trim(peer.presharedKey));
    FieldRead(r0, "PublicKey", peer.publicKey);
    FieldRead(r1, "PresharedKey", peer.presharedKey);
    FieldRead(r2, "AllowedIPs", allowed);
    assert PeerLines(peer) == start + psk + [Field("AllowedIPs", allowed)];
    assert PeerSection(r, peer) == r2.Put("AllowedIPs", Trim(allowed));
    ReadThree(r, "", "[Peer]", Field("PublicKey", peer.publicKey));
    ReadOne(r1, Field("PresharedKey", peer.presharedKey));
    ReadOne(r2, Field("AllowedIPs", allowed));
    hide *;
    ReadConcat(r, start, psk);
    ReadConcat(r, start + psk, [Field("AllowedIPs", allowed)]);
  }

  lemma {:induction false} ReadThree(r: Reading, a: string, b: string, c: string)
    ensures ReadLines(r, [a, b, c]) == ReadLine(ReadLine(ReadLine(r, a), b), c)
  {
    assert [a, b, c][1..] == [b, c] && [b, c][1..] == [c] && [c][1..] == [];
    hide ReadLine;
    ReadOne(ReadLine(ReadLine(r, a), b), c);
  }

  /** The peers with a key. */
  function WithKey(peers: seq<ServerPeer>): seq<ServerPeer> {
    if peers == [] then []
    else WithKey(peers[..|peers| - 1]) + if peers[|peers| - 1].publicKey == "" then [] else [peers[|peers| - 1]]
  }

  ghost predicate SaysPeers(ms: seq<map<string, string>>, peers: seq<ServerPeer>) {
    |ms| == |peers| && forall i :: 0 <= i < |ms| ==> SaysPeer(ms[i], peers[i])
  }

  lemma {:induction false} PeersRead(r: Reading, peers: seq<ServerPeer>)
    requires r.peers == []
    ensures var t := ReadLines(r, AllPeerLines(peers)); t.iface == r.iface && SaysPeers(t.peers, WithKey(peers))
  {
    ReadOne(r, "");
    hide ReadLines, PeerLines, SaysPeer;
    if peers != [] {
      var init, last := peers[..|peers| - 1], peers[|peers| - 1];
      PeersRead(r, init);
      ReadConcat(r, AllPeerLines(init), PeerLines(last));
      var t := ReadLines(r, AllPeerLines(init));
      if last.publicKey == "" {
        assert PeerLines(last) == [] by { NoPeerSection(last); }
        assert AllPeerLines(init) + [] == AllPeerLines(init);
      } else {
        PeerRead(t, last);
        SectionSays(t, last);
        hide PeerSection;
      }
    }
  }

  lemma {:induction false} NoPeerSection(peer: ServerPeer)
    requires peer.publicKey == ""
    ensures PeerLines(peer) == []
  {
  }

  /** Read from the rendered text, every key of the interface section has the value that was
      promised for it and no other key is there, and each peer with a key has its section. */
  ghost predicate SaysAll(content: string, p: Params) {
    && (forall key :: Value(ReadConf(content).iface, key) == Promised(p.iface, key))
    && SaysPeers(ReadConf(content).peers, WithKey(p.peers))
  }

  lemma {:induction false} TextSaysAll(p: Params)
    requires PlainValues(p.iface) && PlainPeers(p.peers)
    ensures SaysAll(Unlines(ConfLines(p)), p)
  {
    InterfacePairs(p.iface);
    PairsPlain(InterfaceFields(p.iface));
    var fs := InterfaceFields(p.iface);
    var lines := ["[Interface]"] + Lines(fs) + AllPeerLines(p.peers);
    ConfLinesFree(Lines(fs), p.peers);
    SplitUnlines(lines);
    hide InterfaceFields, Lines, AllPeerLines, ReadLines, Trim, Promised, SaysPeers, PlainPairs, AllPlain, Split, Unlines, ReadLine;
    var r := Reading(map[], []);
    HeadersRead(r);
    ReadOne(r, "[Interface]");
    ReadConcat(r, lines, [""]);
    ReadConcat(r, ["[Interface]"] + Lines(fs), AllPeerLines(p.peers));
    ReadConcat(r, ["[Interface]"], Lines(fs));
    FieldsRead(r, fs);
    var t := ReadLines(r, Lines(fs));
    PeersRead(t, p.peers);
    HeadersRead(ReadLines(r, lines));
    ReadOne(ReadLines(r, lines), "");
    forall key
      ensures Value(ReadConf(Unlines(ConfLines(p))).iface, key) == Promised(p.iface, key)
    {
      InterfaceLookup(p.iface, key);
    }
  }

  // ---- The forwarding commands ----

  lemma {:induction false} SplitJoined(words: seq<string>, sep: char)
    requires words != [] && AllFree(words, sep)
    ensures Split(Join(words, [sep]), sep) == words
  {
    if |words| == 1 {
      SplitWhole(words[0], sep);
    } else {
      SplitJoined(words[1..], sep);
      SplitHead(words[0], Join(words[1..], [sep]), sep);
      assert words == [words[0]] + words[1..];
    }
  }

  lemma {:induction false} SplitWhole(s: string, sep: char)
    requires Free(s, sep)
    ensures Split(s, sep) == [s]
  {
    if s != "" {
      SplitWhole(s[1..], sep);
      assert [s[0]] + s[1..] == s;
    }
  }

  /** The words of the command follow each other in the text. */
  ghost predicate Runs(text: string, command: seq<string>) {
    exists k: nat :: RunsAt(text, command, k)
  }

  ghost predicate RunsAt(text: string, command: seq<string>, k: nat) {
    k + |command| <= |Split(text, ' ')| && Split(text, ' ')[k..k + |command|] == command
  }

  function Added(from: string, to: string): seq<string> {
    ["||", "iptables", "-A", "FORWARD", "-i", from, "-o", to, "-j"]
  }

  function Checked(from: string, to: string): seq<string> {
    ["iptables", "-C", "FORWARD", "-i", from, "-o", to, "-j", "ACCEPT", "2>/dev/null"]
  }

  function Deleted(from: string, to: string): seq<string> {
    ["iptables", "-D", "FORWARD", "-i", from, "-o", to, "-j", "ACCEPT", "2>/dev/null"]
  }

  /** PostUp opens forwarding between the interface and the TUN in both directions, each rule only
      if it is not there yet, and PostDown deletes both again. */
  lemma {:induction false} ForwardingBothWays(iface: string, tun: string)
    requires Free(iface, ' ') && Free(tun, ' ')
    ensures Runs(PostUp(iface, tun), Checked(iface, tun) + Added(iface, tun) + ["ACCEPT;"])
    ensures Runs(PostUp(iface, tun), Checked(tun, iface) + Added(tun, iface) + ["ACCEPT"])
    ensures Runs(PostDown(iface, tun), Deleted(iface, tun)) && Runs(PostDown(iface, tun), Deleted(tun, iface))
  {
    UpWords(iface, tun);
    DownWords(iface, tun);
    CommandShapes(iface, tun);
    CommandShapes(tun, iface);
    UpShape(iface, tun);
    var head := UpList(iface, tun)[..8];
    var there, back := Checked(iface, tun) + Added(iface, tun), Checked(tun, iface) + Added(tun, iface);
    hide Split, PostUp, PostDown, UpList, DropForward, AcceptForward, Added, Checked, Deleted, RunsAt, Runs;
    Placed(PostUp(iface, tun), head, there + ["ACCEPT;"], back + ["ACCEPT"]);
    assert head + (there + ["ACCEPT;"]) + (back + ["ACCEPT"]) + [] == head + there + ["ACCEPT;"] + back + ["ACCEPT"];
    Placed(PostUp(iface, tun), head + (there + ["ACCEPT;"]), back + ["ACCEPT"], []);
    var gone, too := Deleted(iface, tun), Deleted(tun, iface);
    assert [] + gone + (["||", "true;"] + (too + ["||"]) + ["true"]) == (gone + ["||"]) + ["true;"] + (too + ["||"]) + ["true"];
    Placed(PostDown(iface, tun), [], gone, ["||", "true;"] + (too + ["||"]) + ["true"]);
    assert (gone + ["||", "true;"]) + too + ["||", "true"] == (gone + ["||"]) + ["true;"] + (too + ["||"]) + ["true"];
    Placed(PostDown(iface, tun), gone + ["||", "true;"], too, ["||", "true"]);
  }

  lemma {:induction false} Placed(text: string, a: seq<string>, b: seq<string>, c: seq<string>)
    requires Split(text, ' ') == a + b + c
    ensures Runs(text, b)
  {
    assert (a + b + c)[|a|..|a| + |b|] == b;
    assert RunsAt(text, b, |a|);
  }

  lemma {:induction false} CommandShapes(from: string, to: string)
    ensures AcceptForward(from, to) == Checked(from, to) + Added(from, to)
    ensures DropForward(from, to) == Deleted(from, to) + ["||"]
  {
  }

  lemma {:induction false} UpShape(iface: string, tun: string)
    ensures |UpList(iface, tun)| >= 8
    ensures UpList(iface, tun) == UpList(iface, tun)[..8] + AcceptForward(iface, tun) + ["ACCEPT;"] + AcceptForward(tun, iface) + ["ACCEPT"]
  {
    hide AcceptForward;
  }

  lemma {:induction false} ForwardWords(from: string, to: string)
    requires Free(from, ' ') && Free(to, ' ')
    ensures AllFree(AcceptForward(from, to), ' ') && AllFree(DropForward(from, to), ' ')
  {
  }

  lemma {:induction false} UpHead(iface: string)
    requires Free(iface, ' ')
    ensures AllFree(["echo", "1", ">", "/proc/sys/net/" + "ipv4/ip_forward;", "sysctl", "-w",
                     "net.ipv4.conf." + iface + ".rp_filter=0", "2>/dev/null;"], ' ')
  {
    assert Free("/proc/sys/net/", ' ') && Free("ipv4/ip_forward;", ' ');
    assert Free("net.ipv4.conf.", ' ') && Free(".rp_filter=0", ' ');
  }

  lemma {:induction false} UpWords(iface: string, tun: string)
    requires Free(iface, ' ') && Free(tun, ' ')
    ensures Split(PostUp(iface, tun), ' ') == UpList(iface, tun)
  {
    var head := ["echo", "1", ">", "/proc/sys/net/" + "ipv4/ip_forward;", "sysctl", "-w",
                 "net.ipv4.conf." + iface + ".rp_filter=0", "2>/dev/null;"];
    var a, b := AcceptForward(iface, tun), AcceptForward(tun, iface);
    ForwardWords(iface, tun);
    ForwardWords(tun, iface);
    UpHead(iface);
    assert AllFree(["ACCEPT;"], ' ') && AllFree(["ACCEPT"], ' ');
    assert UpList(iface, tun) == head + a + ["ACCEPT;"] + b + ["ACCEPT"];
    hide AcceptForward, UpList, AllFree, Free, Join, Split;
    AllFreeConcat(head, a, ' ');
    AllFreeConcat(head + a, ["ACCEPT;"], ' ');
    AllFreeConcat(head + a + ["ACCEPT;"], b, ' ');
    AllFreeConcat(head + a + ["ACCEPT;"] + b, ["ACCEPT"], ' ');
    SplitJoined(UpList(iface, tun), ' ');
    assert [' '] == " ";
  }

  lemma {:induction false} DownWords(iface: string, tun: string)
    requires Free(iface, ' ') && Free(tun, ' ')
    ensures Split(PostDown(iface, tun), ' ') == DropForward(iface, tun) + ["true;"] + DropForward(tun, iface) + ["true"]
  {
    var a, b := DropForward(iface, tun), DropForward(tun, iface);
    ForwardWords(iface, tun);
    ForwardWords(tun, iface);
    assert AllFree(["true;"], ' ') && AllFree(["true"], ' ');
    assert PostDown(iface, tun) == Join(a + ["true;"] + b + ["true"], " ");
    hide DropForward, PostDown, AllFree, Free, Join, Split;
    AllFreeConcat(a, ["true;"], ' ');
    AllFreeConcat(a + ["true;"], b, ' ');
    AllFreeConcat(a + ["true;"] + b, ["true"], ' ');
    SplitJoined(a + ["true;"] + b + ["true"], ' ');
    assert [' '] == " ";
  }
}
