/** TCP segments in Ethernet and IPv4 frames: built in place, parsed back, checksums that verify. */
module NetSegment {
  import opened Bytes
  import opened NetChecksum

  const PROTO_TCP: byte := 6
  const ETH_LEN := 14
  const IP_LEN := 20
  const TCP_LEN := 20
  const MIN_FRAME := 60

  datatype Segment = Segment(srcPort: nat, dstPort: nat, num: nat, ack: nat, flags: byte, window: nat,
      payload: seq<byte>)

  /** Field widths; the payload fits the 16-bit total length. */
  predicate Fits(s: Segment) {
    && s.srcPort < 0x1_0000 && s.dstPort < 0x1_0000 && s.window < 0x1_0000 && s.num < U32 && s.ack < U32
    && IP_LEN + TCP_LEN + |s.payload| < 0x1_0000
  }

  /** Hardware and protocol addresses of the two ends of a frame. */
  datatype Ends = Ends(srcMac: seq<byte>, srcIp: seq<byte>, dstMac: seq<byte>, dstIp: seq<byte>)

  predicate EndsOk(e: Ends) {
    |e.srcMac| == 6 && |e.srcIp| == 4 && |e.dstMac| == 6 && |e.dstIp| == 4
  }

  // ----- layout -----

  function EthHead(e: Ends): (r: seq<byte>)
    requires EndsOk(e)
    ensures |r| == 14
  {
    e.dstMac + e.srcMac + [0x08, 0x00]
  }

  function IpBefore(total: nat, proto: byte): (r: seq<byte>)
    requires total < 0x1_0000
    ensures |r| == 10
  {
    [0x45, 0] + ToBe16(total) + [0, 0, 0, 0, 64, proto]
  }

  function IpHead(e: Ends, total: nat, proto: byte, sum: nat): (r: seq<byte>)
    requires EndsOk(e) && total < 0x1_0000 && sum < 0x1_0000
    ensures |r| == 20
  {
    IpBefore(total, proto) + ToBe16(sum) + (e.srcIp + e.dstIp)
  }

  function TcpBefore(s: Segment): (r: seq<byte>)
    requires Fits(s)
    ensures |r| == 16
  {
    ToBe16(s.srcPort) + ToBe16(s.dstPort) + ToBe32(s.num) + ToBe32(s.ack) + [0x50, s.flags] + ToBe16(s.window)
  }

  /** Header and payload: what the TCP checksum covers besides the pseudo-header. */
  function TcpPart(s: Segment, sum: nat): (r: seq<byte>)
    requires Fits(s) && sum < 0x1_0000
    ensures |r| == 20 + |s.payload|
  {
    TcpBefore(s) + ToBe16(sum) + ([0, 0] + s.payload)
  }

  /** The pseudo-header of section 3.1 of RFC 793. */
  function Pseudo(e: Ends, len: nat): (r: seq<byte>)
    requires EndsOk(e) && len < 0x1_0000
    ensures |r| == 12
  {
    e.srcIp + e.dstIp + [0, PROTO_TCP] + ToBe16(len)
  }

  function TcpSum(e: Ends, s: Segment): (c: nat)
    requires EndsOk(e) && Fits(s)
    ensures c < 0x1_0000
  {
    Checksum(WordSum(Pseudo(e, TCP_LEN + |s.payload|)) + WordSum(TcpPart(s, 0)))
  }

  function IpSum(e: Ends, total: nat, proto: byte): (c: nat)
    requires EndsOk(e) && total < 0x1_0000
    ensures c < 0x1_0000
  {
    Checksum(WordSum(IpHead(e, total, proto, 0)))
  }

  function Bare(e: Ends, s: Segment, ipSum: nat, tcpSum: nat): (r: seq<byte>)
    requires EndsOk(e) && Fits(s) && ipSum < 0x1_0000 && tcpSum < 0x1_0000
    ensures |r| == 54 + |s.payload|
  {
    EthHead(e) + IpHead(e, IP_LEN + TCP_LEN + |s.payload|, PROTO_TCP, ipSum) + TcpPart(s, tcpSum)
  }

  function Zeros(n: nat): (r: seq<byte>)
    ensures |r| == n && forall i | 0 <= i < n :: r[i] == 0
  {
    seq(n, i => 0)
  }

  function Padded(f: seq<byte>): (r: seq<byte>)
    ensures |r| >= MIN_FRAME && f <= r
  {
    if |f| < MIN_FRAME then f + Zeros(MIN_FRAME - |f|) else f
  }

  /** The frame that carries `s`. */
  function Frame(e: Ends, s: Segment): (r: seq<byte>)
    requires EndsOk(e) && Fits(s)
  {
    Padded(Bare(e, s, IpSum(e, IP_LEN + TCP_LEN + |s.payload|, PROTO_TCP), TcpSum(e, s)))
  }

  // ----- parsing -----

  /** `buf[..len]` as a segment from `peer`, if it is one. */
  function Parse(buf: seq<byte>, len: nat, peer: seq<byte>): Option<Segment>
    requires len <= |buf| && |peer| == 4
  {
    if len < 34 || buf[12..14] != [0x08, 0x00] || buf[14] != 0x45 || buf[23] != PROTO_TCP
        || buf[26..30] != peer then None
    else
      var total := Be16(buf, 16);
      if total < IP_LEN || ETH_LEN + total > len || total - IP_LEN < TCP_LEN then None
      else
        var offset := (buf[46] / 16) * 4;
        if offset < TCP_LEN || offset > total - IP_LEN then None
        else Some(Segment(Be16(buf, 34), Be16(buf, 36), Be32(buf, 38), Be32(buf, 42), buf[47], Be16(buf, 48),
                          buf[34 + offset..ETH_LEN + total]))
  }

  // ----- round trip -----

  lemma Be16At(f: seq<byte>, o: nat, a: seq<byte>, v: nat, b: seq<byte>)
    requires v < 0x1_0000 && f == a + ToBe16(v) + b && |a| == o
    ensures o + 2 <= |f| && Be16(f, o) == v
  {
    assert f[o] == ToBe16(v)[0] && f[o + 1] == ToBe16(v)[1];
  }

  lemma Be32At(f: seq<byte>, o: nat, a: seq<byte>, v: nat, b: seq<byte>)
    requires v < U32 && f == a + ToBe32(v) + b && |a| == o
    ensures o + 4 <= |f| && Be32(f, o) == v
  {
    var w := ToBe32(v);
    assert f[o] == w[0] && f[o + 1] == w[1] && f[o + 2] == w[2] && f[o + 3] == w[3];
  }

  lemma TcpFields(s: Segment, sum: nat)
    requires Fits(s) && sum < 0x1_0000
    ensures var t := TcpPart(s, sum);
            && Be16(t, 0) == s.srcPort && Be16(t, 2) == s.dstPort && Be32(t, 4) == s.num && Be32(t, 8) == s.ack
            && t[12] == 0x50 && t[13] == s.flags && Be16(t, 14) == s.window && t[20..] == s.payload
  {
    hide Be16, Be32, ToBe16, ToBe32, LeVal, LeBytes;
    var t := TcpPart(s, sum);
    var p1, p2, p3, p4 := ToBe16(s.srcPort), ToBe16(s.dstPort), ToBe32(s.num), ToBe32(s.ack);
    var rest := ToBe16(sum) + ([0, 0] + s.payload);
    Be16At(t, 0, [], s.srcPort, p2 + p3 + p4 + [0x50, s.flags] + ToBe16(s.window) + rest);
    Be16At(t, 2, p1, s.dstPort, p3 + p4 + [0x50, s.flags] + ToBe16(s.window) + rest);
    Be32At(t, 4, p1 + p2, s.num, p4 + [0x50, s.flags] + ToBe16(s.window) + rest);
    Be32At(t, 8, p1 + p2 + p3, s.ack, [0x50, s.flags] + ToBe16(s.window) + rest);
    Be16At(t, 14, p1 + p2 + p3 + p4 + [0x50, s.flags], s.window, rest);
  }

  lemma IpFields(e: Ends, total: nat, proto: byte, sum: nat)
    requires EndsOk(e) && total < 0x1_0000 && sum < 0x1_0000
    ensures var h := IpHead(e, total, proto, sum);
            && h[0] == 0x45 && Be16(h, 2) == total && h[9] == proto && h[12..16] == e.srcIp && h[16..20] == e.dstIp
  {
    hide Be16, ToBe16, LeVal, LeBytes;
    var h := IpHead(e, total, proto, sum);
    Be16At(h, 2, [0x45, 0], total, [0, 0, 0, 0, 64, proto] + ToBe16(sum) + (e.srcIp + e.dstIp));
  }

  lemma Be16Shift(f: seq<byte>, lo: nat, g: seq<byte>, o: nat)
    requires lo + |g| <= |f| && f[lo..lo + |g|] == g && o + 2 <= |g|
    ensures Be16(f, lo + o) == Be16(g, o)
  {
    assert f[lo + o] == g[o] && f[lo + o + 1] == g[o + 1];
  }

  lemma Be32Shift(f: seq<byte>, lo: nat, g: seq<byte>, o: nat)
    requires lo + |g| <= |f| && f[lo..lo + |g|] == g && o + 4 <= |g|
    ensures Be32(f, lo + o) == Be32(g, o)
  {
    Be16Shift(f, lo, g, o);
    Be16Shift(f, lo, g, o + 2);
  }

  /** Where each field is in a frame, big end first (RFC 791 and section 3.1 of RFC 793). */
  lemma FrameLayout(e: Ends, s: Segment)
    requires EndsOk(e) && Fits(s)
    ensures var f := Frame(e, s);
            && |f| == (if |s.payload| < 6 then 60 else 54 + |s.payload|)
            && f[..6] == e.dstMac && f[6..12] == e.srcMac && f[12] == 0x08 && f[13] == 0x00
            && f[14] == 0x45 && f[22] == 64 && f[23] == 6 && f[26..30] == e.srcIp && f[30..34] == e.dstIp
            && Number(f[16], f[17]) == 40 + |s.payload|
            && Number(f[34], f[35]) == s.srcPort && Number(f[36], f[37]) == s.dstPort
            && 65536 * Number(f[38], f[39]) + Number(f[40], f[41]) == s.num
            && 65536 * Number(f[42], f[43]) + Number(f[44], f[45]) == s.ack
            && f[46] == 0x50 && f[47] == s.flags && Number(f[48], f[49]) == s.window
            && f[54..54 + |s.payload|] == s.payload && forall i | 54 + |s.payload| <= i < |f| :: f[i] == 0
  {
    hide TcpPart, IpHead, IpSum, TcpSum, ToBe16, ToBe32;
    var f, total := Frame(e, s), IP_LEN + TCP_LEN + |s.payload|;
    var h, t := IpHead(e, total, PROTO_TCP, IpSum(e, total, PROTO_TCP)), TcpPart(s, TcpSum(e, s));
    HeadBytes(e, total, IpSum(e, total, PROTO_TCP));
    PartBytes(s, TcpSum(e, s));
    var b := EthHead(e) + h + t;
    assert f[..|b|] == b;
    assert b[14..34] == h && b[34..] == t;
    forall i | 0 <= i < 20 ensures f[14 + i] == h[i] {
      assert f[14 + i] == b[14..34][i];
    }
    forall i | 0 <= i < |t| ensures f[34 + i] == t[i] {
      assert f[34 + i] == b[34..][i];
    }
    assert f[26..30] == h[12..16] && f[30..34] == h[16..20];
    assert f[54..54 + |s.payload|] == t[20..];
    assert f[..6] == b[..6] == e.dstMac && f[6..12] == b[6..12] == e.srcMac;
  }

  lemma HeadBytes(e: Ends, total: nat, sum: nat)
    requires EndsOk(e) && total < 0x1_0000 && sum < 0x1_0000
    ensures var h := IpHead(e, total, PROTO_TCP, sum);
            h[0] == 0x45 && h[8] == 64 && h[9] == 6 && Number(h[2], h[3]) == total && h[12..16] == e.srcIp
                && h[16..20] == e.dstIp
  {
    hide ToBe16;
    Be16Bytes(total);
    var h := IpHead(e, total, PROTO_TCP, sum);
    assert h[2] == ToBe16(total)[0] && h[3] == ToBe16(total)[1];
  }

  lemma Be16Bytes(v: nat)
    requires v < 0x1_0000
    ensures Number(ToBe16(v)[0], ToBe16(v)[1]) == v
  {
    LeTwo(ToBe16(v)[1], ToBe16(v)[0]);
    hide ToBe16, LeVal;
  }

  lemma Be32Bytes(v: nat)
    requires v < U32
    ensures var b := ToBe32(v); 65536 * Number(b[0], b[1]) + Number(b[2], b[3]) == v
  {
    var b := ToBe32(v);
    LeFour(b[3], b[2], b[1], b[0]);
    hide ToBe32, LeVal;
  }

  lemma PartBytes(s: Segment, sum: nat)
    requires Fits(s) && sum < 0x1_0000
    ensures var t := TcpPart(s, sum);
            && Number(t[0], t[1]) == s.srcPort && Number(t[2], t[3]) == s.dstPort
            && 65536 * Number(t[4], t[5]) + Number(t[6], t[7]) == s.num
            && 65536 * Number(t[8], t[9]) + Number(t[10], t[11]) == s.ack
            && t[12] == 0x50 && t[13] == s.flags && Number(t[14], t[15]) == s.window && t[20..] == s.payload
  {
    hide ToBe16, ToBe32;
    Be16Bytes(s.srcPort);
    Be16Bytes(s.dstPort);
    Be16Bytes(s.window);
    Be32Bytes(s.num);
    Be32Bytes(s.ack);
    var t := TcpPart(s, sum);
    var sp, dp, n, a, wd := ToBe16(s.srcPort), ToBe16(s.dstPort), ToBe32(s.num), ToBe32(s.ack), ToBe16(s.window);
    assert t[0] == sp[0] && t[1] == sp[1] && t[2] == dp[0] && t[3] == dp[1] && t[14] == wd[0] && t[15] == wd[1];
    assert t[4] == n[0] && t[5] == n[1] && t[6] == n[2] && t[7] == n[3];
    assert t[8] == a[0] && t[9] == a[1] && t[10] == a[2] && t[11] == a[3];
  }

  /** The padding never reaches the payload. */
  lemma RoundTrip(e: Ends, s: Segment)
    requires EndsOk(e) && Fits(s)
    ensures Parse(Frame(e, s), |Frame(e, s)|, e.srcIp) == Some(s)
  {
    hide Be16, Be32, TcpPart, IpHead, Padded, IpSum, TcpSum;
    var f, total := Frame(e, s), IP_LEN + TCP_LEN + |s.payload|;
    var h, t := IpHead(e, total, PROTO_TCP, IpSum(e, total, PROTO_TCP)), TcpPart(s, TcpSum(e, s));
    IpFields(e, total, PROTO_TCP, IpSum(e, total, PROTO_TCP));
    TcpFields(s, TcpSum(e, s));
    var b := EthHead(e) + h + t;
    assert f[..|b|] == b;
    assert f[14..34] == b[14..34] == h && f[34..34 + |t|] == b[34..34 + |t|] == t;
    assert f[12..14] == b[12..14] == [0x08, 0x00];
    assert f[14] == h[0] && f[23] == h[9] && f[26..30] == h[12..16];
    Be16Shift(f, 14, h, 2);
    assert f[46] == t[12] && f[47] == t[13];
    Be16Shift(f, 34, t, 0);
    Be16Shift(f, 34, t, 2);
    Be32Shift(f, 34, t, 4);
    Be32Shift(f, 34, t, 8);
    Be16Shift(f, 34, t, 14);
    assert f[54..14 + total] == t[20..];
  }

  /** Both checksums of a built frame verify at the receiver, the second with the pseudo-header of
      section 3.1 of RFC 793. */
  lemma ChecksumsVerify(e: Ends, s: Segment)
    requires EndsOk(e) && Fits(s)
    ensures var f := Frame(e, s);
            && Verifies(WordSum(f[14..34]))
            && var pseudo := e.srcIp + e.dstIp + [0, 6] + ToBe16(20 + |s.payload|);
               Verifies(WordSum(pseudo) + WordSum(f[34..54 + |s.payload|]))
  {
    hide WordSum, Checksum, Verifies, Padded;
    var f, total := Frame(e, s), IP_LEN + TCP_LEN + |s.payload|;
    var ip, tcp := IpSum(e, total, PROTO_TCP), TcpSum(e, s);
    var b := Bare(e, s, ip, tcp);
    assert f[..|b|] == b;
    assert f[14..34] == b[14..34] == IpHead(e, total, PROTO_TCP, ip);
    assert f[34..54 + |s.payload|] == b[34..54 + |s.payload|] == TcpPart(s, tcp);
    FieldSum(IpBefore(total, PROTO_TCP), ip, e.srcIp + e.dstIp);
    FieldSum(IpBefore(total, PROTO_TCP), 0, e.srcIp + e.dstIp);
    Completed(WordSum(IpHead(e, total, PROTO_TCP, 0)));
    FieldSum(TcpBefore(s), tcp, [0, 0] + s.payload);
    FieldSum(TcpBefore(s), 0, [0, 0] + s.payload);
    Completed(WordSum(Pseudo(e, TCP_LEN + |s.payload|)) + WordSum(TcpPart(s, 0)));
  }

  /** Bytes past `len`, left over from an earlier frame, play no part. */
  lemma ParsePrefix(buf: seq<byte>, len: nat, peer: seq<byte>)
    requires len <= |buf| && |peer| == 4
    ensures Parse(buf, len, peer) == Parse(buf[..len], len, peer)
  {
    var b := buf[..len];
    if len >= 34 {
      assert b[12..14] == buf[12..14] && b[26..30] == buf[26..30] && Be16(b, 16) == Be16(buf, 16);
      var total := Be16(buf, 16);
      hide Be16;
      if 40 <= total && 14 + total <= len {
        var offset := (buf[46] / 16) * 4;
        assert b[46] == buf[46];
        if 20 <= offset <= total - 20 {
          assert b[34 + offset..14 + total] == buf[34 + offset..14 + total];
          SameWords(buf, len, 34);
          SameWords(buf, len, 36);
          SameWords(buf, len, 38);
          SameWords(buf, len, 40);
          SameWords(buf, len, 42);
          SameWords(buf, len, 44);
          SameWords(buf, len, 48);
        }
      }
    }
  }

  lemma SameWords(buf: seq<byte>, len: nat, o: nat)
    requires o + 2 <= len <= |buf|
    ensures Be16(buf[..len], o) == Be16(buf, o)
  {
  }

  // ----- building in place -----

  /** Copies `s` into `buf` at `at`. */
  method Put(buf: array<byte>, at: nat, s: seq<byte>)
    requires at + |s| <= buf.Length
    modifies buf
    ensures buf[..] == Patch(old(buf[..]), at, s)
    ensures buf[..at + |s|] == old(buf[..at]) + s && buf[at + |s|..] == old(buf[at + |s|..])
  {
    var i := 0;
    while i < |s|
      invariant i <= |s|
      invariant forall j | 0 <= j < buf.Length :: buf[j] == if at <= j < at + i then s[j - at] else old(buf[j])
    {
      buf[at + i] := s[i];
      i := i + 1;
    }
  }

  /** Zero-fills a short frame up to the Ethernet minimum; returns the length to send. */
  method PadToMinFrame(buf: array<byte>, len: nat) returns (n: nat)
    requires len <= buf.Length && MIN_FRAME <= buf.Length
    modifies buf
    ensures n <= buf.Length && buf[..n] == Padded(old(buf[..len])) && buf[n..] == old(buf[n..])
  {
    n := len;
    if len < MIN_FRAME {
      Put(buf, len, Zeros(MIN_FRAME - len));
      n := MIN_FRAME;
    }
  }

  method PutHeads(buf: array<byte>, e: Ends, total: nat)
    requires EndsOk(e) && total < 0x1_0000 && 34 <= buf.Length
    modifies buf
    ensures buf[..34] == EthHead(e) + IpHead(e, total, PROTO_TCP, 0)
  {
    hide ToBe16, Patch, Be16, LeVal, LeBytes;
    Put(buf, 0, e.dstMac);
    Put(buf, 6, e.srcMac);
    Put(buf, 12, [0x08, 0x00]);
    assert buf[..14] == EthHead(e);
    Put(buf, 14, [0x45, 0]);
    Put(buf, 16, ToBe16(total));
    Put(buf, 18, [0, 0, 0, 0, 64, PROTO_TCP]);
    assert buf[..24] == EthHead(e) + IpBefore(total, PROTO_TCP);
    Put(buf, 24, ToBe16(0));
    Put(buf, 26, e.srcIp + e.dstIp);
  }

  method PutTcp(buf: array<byte>, s: Segment)
    requires Fits(s) && 54 + |s.payload| <= buf.Length
    modifies buf
    ensures buf[..54 + |s.payload|] == old(buf[..34]) + TcpPart(s, 0)
  {
    hide ToBe16, ToBe32, Patch, Be16, LeVal, LeBytes;
    Put(buf, 34, ToBe16(s.srcPort));
    Put(buf, 36, ToBe16(s.dstPort));
    Put(buf, 38, ToBe32(s.num));
    Put(buf, 42, ToBe32(s.ack));
    Put(buf, 46, [0x50, s.flags]);
    Put(buf, 48, ToBe16(s.window));
    assert buf[..50] == old(buf[..34]) + TcpBefore(s);
    Put(buf, 50, ToBe16(0));
    Put(buf, 52, [0, 0]);
    Put(buf, 54, s.payload);
  }

  /** Writes a checksum into the field between `a` and `b`. */
  method PutSum(buf: array<byte>, ghost a: seq<byte>, at: nat, sum: nat, ghost b: seq<byte>)
    requires sum < 0x1_0000 && |a| == at && at + 2 + |b| <= buf.Length && buf[..at + 2 + |b|] == a + ToBe16(0) + b
    modifies buf
    ensures buf[..at + 2 + |b|] == a + ToBe16(sum) + b && buf[at + 2 + |b|..] == old(buf[at + 2 + |b|..])
  {
    hide ToBe16, Be16, LeVal, LeBytes;
    ghost var n := at + 2 + |b|;
    ghost var f := buf[..];
    assert f[..n][..at] == a && f[..n][at + 2..] == b;
    Put(buf, at, ToBe16(sum));
    assert buf[..n] == f[..at] + ToBe16(sum) + f[at + 2..n];
  }

  method SumRange(buf: array<byte>, lo: nat, hi: nat, sum: nat) returns (r: nat)
    requires lo <= hi <= buf.Length && hi - lo < 0x1_0000 && sum < 0x1_0000_0000 - 0x8000_8000
    ensures r == sum + WordSum(buf[lo..hi])
  {
    WordSumBound(buf[lo..hi]);
    r := Accumulate(sum, buf[lo..hi]);
  }

  /** Fills in the TCP checksum. */
  method SealTcp(buf: array<byte>, e: Ends, s: Segment, ghost head: seq<byte>)
    requires EndsOk(e) && Fits(s) && 54 + |s.payload| <= buf.Length && |head| == 34
    requires buf[..54 + |s.payload|] == head + TcpPart(s, 0)
    modifies buf
    ensures buf[..54 + |s.payload|] == head + TcpPart(s, TcpSum(e, s))
  {
    hide WordSum, ToBe16, ToBe32, Patch, Pseudo, Checksum, TcpBefore, Be16, LeVal, LeBytes;
    assert buf[34..54 + |s.payload|] == TcpPart(s, 0);
    WordSumBound(Pseudo(e, TCP_LEN + |s.payload|));
    var sum := Accumulate(0, Pseudo(e, TCP_LEN + |s.payload|));
    sum := SumRange(buf, 34, 54 + |s.payload|, sum);
    var tcpSum := Finish(sum);
    assert buf[..54 + |s.payload|] == (head + TcpBefore(s)) + ToBe16(0) + ([0, 0] + s.payload);
    PutSum(buf, head + TcpBefore(s), 50, tcpSum, [0, 0] + s.payload);
  }

  /** Fills in the IPv4 header checksum. */
  method SealIp(buf: array<byte>, e: Ends, total: nat, ghost rest: seq<byte>)
    requires EndsOk(e) && total < 0x1_0000 && 34 + |rest| <= buf.Length
    requires buf[..34 + |rest|] == EthHead(e) + IpHead(e, total, PROTO_TCP, 0) + rest
    modifies buf
    ensures buf[..34 + |rest|] == EthHead(e) + IpHead(e, total, PROTO_TCP, IpSum(e, total, PROTO_TCP)) + rest
  {
    hide WordSum, ToBe16, Patch, Checksum, EthHead, IpBefore, Be16, LeVal, LeBytes;
    assert buf[14..34] == IpHead(e, total, PROTO_TCP, 0);
    var sum := SumRange(buf, 14, 34, 0);
    var ipSum := Finish(sum);
    ghost var a, b := EthHead(e) + IpBefore(total, PROTO_TCP), (e.srcIp + e.dstIp) + rest;
    assert buf[..34 + |rest|] == a + ToBe16(0) + b;
    PutSum(buf, a, 24, ipSum, b);
  }

  method BuildSegment(buf: array<byte>, e: Ends, s: Segment) returns (n: nat)
    requires EndsOk(e) && Fits(s) && 54 + |s.payload| <= buf.Length && MIN_FRAME <= buf.Length
    modifies buf
    ensures n <= buf.Length && buf[..n] == Frame(e, s)
  {
    hide Padded, IpHead, TcpPart, EthHead, IpSum, TcpSum;
    ghost var total := IP_LEN + TCP_LEN + |s.payload|;
    PutHeads(buf, e, IP_LEN + TCP_LEN + |s.payload|);
    PutTcp(buf, s);
    SealTcp(buf, e, s, EthHead(e) + IpHead(e, total, PROTO_TCP, 0));
    SealIp(buf, e, IP_LEN + TCP_LEN + |s.payload|, TcpPart(s, TcpSum(e, s)));
    n := PadToMinFrame(buf, 54 + |s.payload|);
  }
}
