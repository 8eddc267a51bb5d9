/** The persisted AmneziaWG obfuscation material of a chain and its text form (awg_cps.go,
    awgcps_format.go). */
module ObfsMaterial {
  import opened Text
  import opened Topology
  import opened QuicInitial

  // ---- CPS strings ----

  function HexDigit(n: nat): char
    requires n < 16
  {
    if n < 10 then '0' + (n as char) else 'a' + ((n - 10) as char)
  }

  function Nibble(c: char): (r: Option<nat>)
    ensures r.Some? ==> r.value < 16
  {
    if '0' <= c <= '9' then Some((c - '0') as nat)
    else if 'a' <= c <= 'f' then Some((c - 'a') as nat + 10)
    else if 'A' <= c <= 'F' then Some((c - 'A') as nat + 10)
    else None
  }

  /** Digits are written in lower case and read in either. */
  lemma {:induction false} Alphabet(n: nat, c: char)
    requires n < 16
    ensures HexDigit(n) == "0123456789abcdef"[n]
    ensures Nibble(c) == Some(n) <==> c == "0123456789abcdef"[n] || c == "0123456789ABCDEF"[n]
  {
  }

  /** hex.EncodeToString. */
  function Hex(b: Bytes): (h: string)
    ensures |h| == 2 * |b|
  {
    if b == [] then "" else Hex(b[..|b| - 1]) + [HexDigit(b[|b| - 1] / 16), HexDigit(b[|b| - 1] % 16)]
  }

  function EvenHex(h: string): string {
    if |h| % 2 != 0 then "0" + h else h
  }

  /** CPSMaterialString. */
  function CpsString(b: Bytes): (s: string)
    ensures b != [] ==> |s| == 2 * |b| + 6 && s[..5] == "<b 0x" && s[|s| - 1] == '>'
  {
    if b == [] then "" else "<b 0x" + EvenHex(Hex(b)) + ">"
  }

  /** The value of an even-length hex string, if every character is a digit. */
  function Unhex(h: string): Option<Bytes>
    requires |h| % 2 == 0
  {
    if h == "" then Some([])
    else
      var front, hi, lo := Unhex(h[..|h| - 2]), Nibble(h[|h| - 2]), Nibble(h[|h| - 1]);
      if front.None? || hi.None? || lo.None? then None else Some(front.value + [hi.value * 16 + lo.value])
  }

  /** hexDecodeEven: fills the output byte by byte and gives up on the first bad digit. */
  method HexDecodeEven(h: string) returns (out: Option<Bytes>)
    ensures out == Unhex(EvenHex(h))
  {
    var even := EvenHex(h);
    var bytes: Bytes := [];
    for i := 0 to |even| / 2
      invariant Unhex(even[..2 * i]) == Some(bytes)
    {
      var hi, lo := Nibble(even[2 * i]), Nibble(even[2 * i + 1]);
      var next := even[..2 * (i + 1)];
      assert next[..|next| - 2] == even[..2 * i] && next[|next| - 2] == even[2 * i] && next[|next| - 1] == even[2 * i + 1];
      if hi.None? || lo.None? {
        BadPrefix(even, 2 * (i + 1));
        return None;
      }
      bytes := bytes + [hi.value * 16 + lo.value];
    }
    assert even[..2 * (|even| / 2)] == even;
    out := Some(bytes);
  }

  /** The number a string of hexadecimal digits spells. */
  function HexValue(h: string): nat {
    if h == "" then 0
    else HexValue(h[..|h| - 1]) * 16 + match Nibble(h[|h| - 1]) case Some(n) => n case None => 0
  }

  lemma {:induction false} UnhexValue(h: string)
    requires |h| % 2 == 0 && Unhex(h).Some?
    ensures Value(Unhex(h).value) == HexValue(h) && 2 * |Unhex(h).value| == |h|
  {
    if h != "" {
      var front := h[..|h| - 2];
      UnhexValue(front);
      assert h[..|h| - 1][..|h| - 2] == front && h[..|h| - 1][|h| - 2] == h[|h| - 2];
      var b := Unhex(h).value;
      assert b[..|b| - 1] == Unhex(front).value;
      hide Nibble, Unhex;
    }
  }

  lemma {:induction false} LeadingZero(h: string)
    ensures HexValue("0" + h) == HexValue(h)
  {
    if h == "" {
      assert "0" + h == "0" && "0"[..0] == "";
    } else {
      LeadingZero(h[..|h| - 1]);
      assert ("0" + h)[..|h|] == "0" + h[..|h| - 1];
      hide Nibble;
    }
  }

  /** The bytes of a hexadecimal string, of odd length as well, are the number it spells. */
  lemma {:induction false} DecodedValue(h: string)
    requires Unhex(EvenHex(h)).Some?
    ensures Value(Unhex(EvenHex(h)).value) == HexValue(h) && |Unhex(EvenHex(h)).value| == (|h| + 1) / 2
  {
    UnhexValue(EvenHex(h));
    LeadingZero(h);
    hide Unhex, HexValue;
  }

  /** A bad digit anywhere spoils the whole string. */
  lemma {:induction false} BadPrefix(h: string, n: nat)
    requires |h| % 2 == 0 && n % 2 == 0 && n <= |h| && Unhex(h[..n]) == None
    ensures Unhex(h) == None
    decreases |h|
  {
    if n == |h| {
      assert h[..n] == h;
    } else {
      assert h[..|h| - 2][..n] == h[..n];
      BadPrefix(h[..|h| - 2], n);
    }
  }

  function TrimPrefix(s: string, p: string): string {
    if p <= s then s[|p|..] else s
  }

  predicate HasSuffix(s: string, p: string) {
    |p| <= |s| && s[|s| - |p|..] == p
  }

  /** cpsStringToBytes; anything it cannot read counts as no packet. */
  function CpsBytes(stored: string): Bytes {
    var s := Trim(stored);
    if !("<b " <= s) || !HasSuffix(s, ">") then []
    else
      var body := s[3..];
      var inner := TrimPrefix(Trim(if HasSuffix(body, ">") then body[..|body| - 1] else body), "0x");
      var r := Unhex(EvenHex(inner));
      if r.Some? then r.value else []
  }

  lemma {:induction false} DigitNibble(n: nat)
    requires n < 16
    ensures Nibble(HexDigit(n)) == Some(n)
  {
  }

  lemma {:induction false} UnhexSnoc(front: string, hi: nat, lo: nat)
    requires |front| % 2 == 0 && hi < 16 && lo < 16
    ensures Unhex(front + [HexDigit(hi), HexDigit(lo)]) == (if Unhex(front).None? then None else Some(Unhex(front).value + [hi * 16 + lo]))
  {
    var h := front + [HexDigit(hi), HexDigit(lo)];
    assert h[..|h| - 2] == front;
    DigitNibble(hi);
    DigitNibble(lo);
    hide Nibble, HexDigit;
  }

  lemma {:induction false} HexSnoc(front: Bytes, x: Byte)
    ensures Hex(front + [x]) == Hex(front) + [HexDigit(x / 16), HexDigit(x % 16)]
  {
    assert (front + [x])[..|front|] == front;
    hide HexDigit;
  }

  lemma {:induction false} Halves(x: Byte)
    ensures x / 16 < 16 && x % 16 < 16 && x / 16 * 16 + x % 16 == x
  {
  }

  lemma {:induction false} UnhexStep(front: Bytes, x: Byte)
    requires Unhex(Hex(front)) == Some(front)
    ensures Unhex(Hex(front + [x])) == Some(front + [x])
  {
    hide *;
    Halves(x);
    HexSnoc(front, x);
    UnhexSnoc(Hex(front), x / 16, x % 16);
  }

  lemma {:induction false} UnhexHex(b: Bytes)
    ensures Unhex(Hex(b)) == Some(b)
  {
    if b != [] {
      hide *;
      var front := b[..|b| - 1];
      UnhexHex(front);
      UnhexStep(front, b[|b| - 1]);
      assert b == front + [b[|b| - 1]];
    }
  }

  lemma {:induction false} TrimSolid(s: string)
    requires s != "" && !IsSpace(s[0]) && !IsSpace(s[|s| - 1])
    ensures Trim(s) == s
  {
  }

  lemma {:induction false} HexSolid(b: Bytes, i: nat)
    requires i < |Hex(b)|
    ensures '0' <= Hex(b)[i] <= 'f' && !IsSpace(Hex(b)[i])
  {
    if i < |Hex(b[..|b| - 1])| {
      HexSolid(b[..|b| - 1], i);
    }
  }

  /** Every packet comes back from its stored form. */
  lemma {:induction false} CpsRoundTrip(b: Bytes)
    ensures CpsBytes(CpsString(b)) == b
  {
    if b == [] {
      assert Trim("") == "";
    } else {
      var h := Hex(b);
      HexSolid(b, |h| - 1);
      UnhexHex(b);
      Unwrap(h);
    }
  }

  lemma {:induction false} Unwrap(h: string)
    requires h != "" && |h| % 2 == 0 && !IsSpace(h[|h| - 1])
    ensures CpsBytes("<b 0x" + h + ">") == (if Unhex(h).Some? then Unhex(h).value else [])
  {
    var s := "<b 0x" + h + ">";
    TrimSolid(s);
    var body := s[3..];
    assert body == "0x" + h + ">";
    assert s[|s| - 1..] == ">" && body[|body| - 1..] == ">";
    var inner := body[..|body| - 1];
    assert inner == "0x" + h;
    TrimSolid(inner);
    assert inner[2..] == h;
    assert s[..3] == "<b " && inner[..2] == "0x";
  }

  /** So decoding and encoding again gives the same stored string. */
  lemma {:induction false} CpsReencode(b: Bytes)
    ensures CpsString(CpsBytes(CpsString(b))) == CpsString(b)
  {
    CpsRoundTrip(b);
  }

  // ---- The cached material ----

  const LIVE := "quic-live"
  const SYNTHETIC := "quic"
  const NO_MIMICRY := "none"

  /** What a chain keeps: the material, and the domain it was captured from or failed against. */
  datatype Kept = Kept(obfs: Obfs, captured: string, failed: string)

  /** A live capture: nothing, or the packets sent and received. */
  datatype Capture = CaptureFailed | Captured(packets: seq<Bytes>)

  predicate GoodCapture(r: Capture) {
    r.Captured? ==> forall i :: 0 <= i < |r.packets| ==> r.packets[i] != []
  }

  /** Fewer than five packets count as a failure. */
  predicate Usable(r: Capture) {
    r.Captured? && |r.packets| >= 5
  }

  /** What the generator makes: five packets and four header ranges. */
  datatype Material = Material(p1: Bytes, p2: Bytes, p3: Bytes, p4: Bytes, p5: Bytes, h1: string, h2: string, h3: string, h4: string)

  /** GenerateAWGObfsMaterial: empty material without mimicry, at least a first packet with it. */
  predicate Generated(mimicry: string, m: Material) {
    if mimicry == NO_MIMICRY then m == Material([], [], [], [], [], "", "", "", "") else m.p1 != []
  }

  predicate CacheValid(k: Kept, level: int, mimicry: string, domain: string) {
    && k.obfs.i1 != "" && k.obfs.cpsLevel == level
    && if mimicry == LIVE then
         || (k.obfs.cpsMimicry == LIVE && k.captured == domain)
         || (k.obfs.cpsMimicry == SYNTHETIC && k.failed == domain)
       else k.obfs.cpsMimicry == mimicry
  }

  /** The stored form: every packet as a CPS string. */
  function Stored(m: Material, level: int, mimicry: string): Obfs {
    Obfs(level, mimicry, CpsString(m.p1), CpsString(m.p2), CpsString(m.p3), CpsString(m.p4), CpsString(m.p5), m.h1, m.h2, m.h3, m.h4)
  }

  /** Captured packets replace the generated ones; the header ranges stay generated. */
  function WithPackets(m: Material, ps: seq<Bytes>): Material
    requires |ps| >= 5
  {
    m.(p1 := ps[0], p2 := ps[1], p3 := ps[2], p4 := ps[3], p5 := ps[4])
  }

  predicate Dials(k: Kept, level: int, mimicry: string, domain: string) {
    level > 0 && !CacheValid(k, level, mimicry, domain) && mimicry == LIVE && domain != ""
  }

  /** One EnsureChainAWGMaterial: `r` is what a capture would return, `m` what the generator
      returns. */
  function Ensured(k: Kept, level: int, mimicry: string, domain: string, r: Capture, m: Material): Kept {
    if level <= 0 || CacheValid(k, level, mimicry, domain) then k
    else if mimicry == LIVE && domain != "" then
      if Usable(r) then Kept(Stored(WithPackets(m, r.packets), level, LIVE), domain, "")
      else Kept(Stored(m, level, SYNTHETIC), k.captured, domain)
    else k.(obfs := Stored(m, level, mimicry))
  }

  /** The mimicry the generator is asked for. */
  function Asked(mimicry: string, domain: string): string {
    if mimicry == LIVE && domain != "" then SYNTHETIC else mimicry
  }

  class ChainMaterial {
    var obfs: Obfs
    var captureDomain: string
    var capturedDomain: string
    var failedDomain: string
    ghost var dials: nat

    function Now(): Kept
      reads this
    {
      Kept(obfs, capturedDomain, failedDomain)
    }

    /** EnsureChainAWGMaterial. */
    method Ensure(level: int, mimicry: string, r: Capture, m: Material)
      requires GoodCapture(r) && Generated(Asked(mimicry, captureDomain), m)
      modifies this`obfs, this`capturedDomain, this`failedDomain, this`dials
      ensures Now() == Ensured(old(Now()), level, mimicry, captureDomain, r, m)
      ensures dials == old(dials) + if Dials(old(Now()), level, mimicry, captureDomain) then 1 else 0
    {
      hide Stored, WithPackets, Generated, GoodCapture;
      if level <= 0 {
        return;
      }
      var valid := obfs.i1 != "" && obfs.cpsLevel == level;
      if mimicry == LIVE {
        if obfs.cpsMimicry == LIVE {
          valid := valid && capturedDomain == captureDomain;
        } else if obfs.cpsMimicry == SYNTHETIC {
          valid := valid && failedDomain == captureDomain;
        } else {
          valid := false;
        }
      } else {
        valid := valid && obfs.cpsMimicry == mimicry;
      }
      if valid {
        return;
      }
      var use := mimicry;
      if mimicry == LIVE && captureDomain != "" {
        dials := dials + 1;
        if Usable(r) {
          obfs := Stored(WithPackets(m, r.packets), level, mimicry);
          capturedDomain := captureDomain;
          failedDomain := "";
          return;
        }
        failedDomain := captureDomain;
        use := SYNTHETIC;
      }
      obfs := Stored(m, level, use);
    }
  }

  // ---- Redeploys ----

  ghost predicate Redeploy(a: Kept, b: Kept, level: int, mimicry: string, domain: string) {
    exists r, m :: GoodCapture(r) && Generated(Asked(mimicry, domain), m) && b == Ensured(a, level, mimicry, domain, r, m)
  }

  /** The one way the cache never settles: live mimicry without a domain to capture, after a
      capture from some domain. */
  predicate Settles(k: Kept, mimicry: string, domain: string) {
    mimicry != LIVE || domain != "" || k.captured == ""
  }

  lemma {:induction false} FirstCallSettles(a: Kept, b: Kept, level: int, mimicry: string, domain: string)
    requires level > 0 && Redeploy(a, b, level, mimicry, domain) && Settles(a, mimicry, domain)
    ensures CacheValid(b, level, mimicry, domain) || (mimicry == NO_MIMICRY && Blank(b, level))
  {
  }

  /** The only material there is without mimicry. */
  predicate Blank(k: Kept, level: int) {
    k.obfs == Obfs(level, NO_MIMICRY, "", "", "", "", "", "", "", "", "")
  }

  lemma {:induction false} SettledStays(b: Kept, c: Kept, level: int, mimicry: string, domain: string)
    requires level > 0 && Redeploy(b, c, level, mimicry, domain)
    requires CacheValid(b, level, mimicry, domain) || (mimicry == NO_MIMICRY && Blank(b, level))
    ensures c == b && !Dials(b, level, mimicry, domain)
  {
  }

  ghost predicate Run(ks: seq<Kept>, level: int, mimicry: string, domain: string) {
    ks != [] && forall i :: 0 <= i < |ks| - 1 ==> Redeploy(ks[i], ks[i + 1], level, mimicry, domain)
  }

  function DialCount(ks: seq<Kept>, level: int, mimicry: string, domain: string): nat {
    if |ks| <= 1 then 0
    else DialCount(ks[..|ks| - 1], level, mimicry, domain) + if Dials(ks[|ks| - 2], level, mimicry, domain) then 1 else 0
  }

  /** Over any number of redeploys with the same preset and domain the material is the one the
      first call left, and the domain is dialled at most once, whatever the capture brings. */
  lemma {:induction false} MaterialStable(ks: seq<Kept>, level: int, mimicry: string, domain: string)
    requires level > 0 && Run(ks, level, mimicry, domain) && Settles(ks[0], mimicry, domain)
    ensures forall i :: 1 <= i < |ks| ==> ks[i] == ks[1]
    ensures DialCount(ks, level, mimicry, domain) == if |ks| > 1 && Dials(ks[0], level, mimicry, domain) then 1 else 0
    ensures |ks| > 1 ==> CacheValid(ks[1], level, mimicry, domain) || (mimicry == NO_MIMICRY && Blank(ks[1], level))
  {
    hide Redeploy, CacheValid, Blank, Dials, Settles;
    if |ks| > 2 {
      var front := ks[..|ks| - 1];
      MaterialStable(front, level, mimicry, domain);
      assert Redeploy(ks[|ks| - 2], ks[|ks| - 2 + 1], level, mimicry, domain);
      SettledStays(ks[|ks| - 2], ks[|ks| - 1], level, mimicry, domain);
    } else if |ks| == 2 {
      assert Redeploy(ks[0], ks[0 + 1], level, mimicry, domain);
      FirstCallSettles(ks[0], ks[1], level, mimicry, domain);
      assert |ks[..1]| == 1;
    }
  }

  ghost predicate StaysAfter(b: Kept, level: int, mimicry: string, domain: string) {
    forall c :: Redeploy(b, c, level, mimicry, domain) ==> c == b
  }

  /** Exactly when the result of a call survives every further call: not when a live preset has
      lost its domain while the chain remembers one. */
  lemma {:induction false} StaysIff(a: Kept, b: Kept, level: int, mimicry: string, domain: string)
    requires level > 0 && Redeploy(a, b, level, mimicry, domain) && !CacheValid(a, level, mimicry, domain)
    ensures StaysAfter(b, level, mimicry, domain) <==> Settles(a, mimicry, domain)
  {
    if Settles(a, mimicry, domain) {
      FirstCallSettles(a, b, level, mimicry, domain);
      forall c | Redeploy(b, c, level, mimicry, domain)
        ensures c == b
      {
        SettledStays(b, c, level, mimicry, domain);
      }
    } else {
      var m := Material([0], [], [], [], [], b.obfs.h1 + "x", "", "", "");
      var c := Ensured(b, level, mimicry, domain, CaptureFailed, m);
      assert b.captured == a.captured && b.obfs.cpsMimicry == LIVE;
      assert Redeploy(b, c, level, mimicry, domain);
      assert |c.obfs.h1| == |b.obfs.h1| + 1;
    }
  }

  // ---- The kept strings are packets ----

  /** ChainAWGObfsMaterial followed by CPSMaterialStrings: what a config prints for the material. */
  function Reencoded(o: Obfs): Obfs {
    o.(i1 := CpsString(CpsBytes(o.i1)), i2 := CpsString(CpsBytes(o.i2)), i3 := CpsString(CpsBytes(o.i3)),
       i4 := CpsString(CpsBytes(o.i4)), i5 := CpsString(CpsBytes(o.i5)))
  }

  lemma {:induction false} StoredReencodes(m: Material, level: int, mimicry: string)
    ensures Reencoded(Stored(m, level, mimicry)) == Stored(m, level, mimicry)
    ensures CpsBytes(Stored(m, level, mimicry).i1) == m.p1 && CpsBytes(Stored(m, level, mimicry).i2) == m.p2
    ensures CpsBytes(Stored(m, level, mimicry).i3) == m.p3 && CpsBytes(Stored(m, level, mimicry).i4) == m.p4
    ensures CpsBytes(Stored(m, level, mimicry).i5) == m.p5
  {
    CpsRoundTrip(m.p1);
    CpsRoundTrip(m.p2);
    CpsRoundTrip(m.p3);
    CpsRoundTrip(m.p4);
    CpsRoundTrip(m.p5);
    hide CpsString, CpsBytes;
  }

  /** A usable capture is stored packet by packet; the header ranges stay the generated ones. */
  lemma {:induction false} CaptureStored(m: Material, ps: seq<Bytes>, level: int, mimicry: string)
    requires |ps| >= 5
    ensures var o := Stored(WithPackets(m, ps), level, mimicry);
            && CpsBytes(o.i1) == ps[0] && CpsBytes(o.i2) == ps[1] && CpsBytes(o.i3) == ps[2] && CpsBytes(o.i4) == ps[3] && CpsBytes(o.i5) == ps[4]
            && o.h1 == m.h1 && o.h2 == m.h2 && o.h3 == m.h3 && o.h4 == m.h4 && o.cpsLevel == level && o.cpsMimicry == mimicry
  {
    StoredReencodes(WithPackets(m, ps), level, mimicry);
    hide CpsString, CpsBytes, Reencoded;
  }

  lemma {:induction false} RedeployReencodes(a: Kept, b: Kept, level: int, mimicry: string, domain: string)
    requires Redeploy(a, b, level, mimicry, domain)
    ensures b == a || Reencoded(b.obfs) == b.obfs
  {
    var r, m :| GoodCapture(r) && Generated(Asked(mimicry, domain), m) && b == Ensured(a, level, mimicry, domain, r, m);
    StoredReencodes(m, level, mimicry);
    StoredReencodes(m, level, SYNTHETIC);
    if Usable(r) {
      StoredReencodes(WithPackets(m, r.packets), level, LIVE);
    }
    hide Stored, Reencoded, CacheValid;
  }

  /** Over any number of redeploys, whatever is kept and was not there from the start decodes and
      encodes again to the same strings, so server and clients print the same packets. */
  lemma {:induction false} KeptReencodes(ks: seq<Kept>, level: int, mimicry: string, domain: string, i: nat)
    requires Run(ks, level, mimicry, domain) && i < |ks|
    ensures ks[i] == ks[0] || Reencoded(ks[i].obfs) == ks[i].obfs
  {
    hide Redeploy, Reencoded;
    if i > 0 {
      KeptReencodes(ks, level, mimicry, domain, i - 1);
      assert Redeploy(ks[i - 1], ks[i - 1 + 1], level, mimicry, domain);
      RedeployReencodes(ks[i - 1], ks[i], level, mimicry, domain);
    }
  }
}
