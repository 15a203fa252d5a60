/** The standing ARP and ICMP echo responder, and the ARP request that resolves a peer. */
module NetResponder {
  import opened Bytes
  import opened NetChecksum
  import opened NetSegment

  // ----- ARP -----

  function ArpBytes(dst: seq<byte>, src: seq<byte>, op: byte, sha: seq<byte>, spa: seq<byte>, tha: seq<byte>,
                    tpa: seq<byte>): (r: seq<byte>)
    requires |dst| == 6 && |src| == 6 && |sha| == 6 && |spa| == 4 && |tha| == 6 && |tpa| == 4
    ensures |r| == 42
  {
    dst + src + [0x08, 0x06] + [0, 1] + [0x08, 0x00] + [6, 4] + [0, op] + sha + spa + tha + tpa
  }

  function ArpRequest(mac: seq<byte>, ip: seq<byte>, target: seq<byte>): seq<byte>
    requires |mac| == 6 && |ip| == 4 && |target| == 4
  {
    Padded(ArpBytes([255, 255, 255, 255, 255, 255], mac, 1, mac, ip, [0, 0, 0, 0, 0, 0], target))
  }

  function ArpReply(mac: seq<byte>, ip: seq<byte>, asker: seq<byte>, askerIp: seq<byte>): seq<byte>
    requires |mac| == 6 && |ip| == 4 && |asker| == 6 && |askerIp| == 4
  {
    Padded(ArpBytes(asker, mac, 2, mac, ip, asker, askerIp))
  }

  /** `b[..len]` is an ARP request for `ip`. */
  predicate AsksFor(b: seq<byte>, len: nat, ip: seq<byte>)
    requires len <= |b|
  {
    len >= 42 && b[14..16] == [0, 1] && b[16..18] == [0x08, 0x00] && b[18] == 6 && b[19] == 4 && b[20..22] == [0, 1]
        && b[38..42] == ip
  }

  function ParseArpReply(b: seq<byte>, len: nat, target: seq<byte>): (r: Option<seq<byte>>)
    requires len <= |b|
    ensures r.Some? ==> |r.value| == 6
  {
    if len >= 42 && b[12..14] == [0x08, 0x06] && b[14..16] == [0, 1] && b[16..18] == [0x08, 0x00]
        && b[20..22] == [0, 2] && b[28..32] == target
    then Some(b[22..28]) else None
  }

  method BuildArpRequest(buf: array<byte>, mac: seq<byte>, ip: seq<byte>, target: seq<byte>) returns (n: nat)
    requires |mac| == 6 && |ip| == 4 && |target| == 4 && MIN_FRAME <= buf.Length
    modifies buf
    ensures n <= buf.Length && buf[..n] == ArpRequest(mac, ip, target)
  {
    hide Patch, Padded;
    Put(buf, 0, [255, 255, 255, 255, 255, 255]);
    Put(buf, 6, mac);
    Put(buf, 12, [0x08, 0x06]);
    Put(buf, 14, [0, 1]);
    Put(buf, 16, [0x08, 0x00]);
    Put(buf, 18, [6, 4]);
    Put(buf, 20, [0, 1]);
    Put(buf, 22, mac);
    Put(buf, 28, ip);
    Put(buf, 32, [0, 0, 0, 0, 0, 0]);
    Put(buf, 38, target);
    assert buf[..42] == ArpBytes([255, 255, 255, 255, 255, 255], mac, 1, mac, ip, [0, 0, 0, 0, 0, 0], target);
    n := PadToMinFrame(buf, 42);
  }

  /** Turns the request in `buf` into the answer; the fixed fields 12 to 20 stay. */
  method PutArpReply(buf: array<byte>, mac: seq<byte>, ip: seq<byte>, asker: seq<byte>, askerIp: seq<byte>)
    returns (n: nat)
    requires MIN_FRAME <= buf.Length && |mac| == 6 && |ip| == 4 && |asker| == 6 && |askerIp| == 4
    requires buf[12..20] == [0x08, 0x06] + [0, 1] + [0x08, 0x00] + [6, 4]
    modifies buf
    ensures n <= buf.Length && buf[..n] == ArpReply(mac, ip, asker, askerIp)
  {
    hide Patch, Padded;
    ghost var fixed := buf[12..20];
    Put(buf, 0, asker);
    assert buf[12..20] == fixed;
    Put(buf, 6, mac);
    assert buf[12..20] == fixed;
    assert buf[..20] == asker + mac + fixed;
    Put(buf, 20, [0, 2]);
    Put(buf, 22, mac);
    Put(buf, 28, ip);
    Put(buf, 32, asker);
    Put(buf, 38, askerIp);
    assert buf[..42] == ArpBytes(asker, mac, 2, mac, ip, asker, askerIp);
    n := PadToMinFrame(buf, 42);
  }

  /** Answers a request for `ip` in place; anything else is left alone. */
  method HandleArp(buf: array<byte>, len: nat, mac: seq<byte>, ip: seq<byte>) returns (r: Option<nat>)
    requires len <= buf.Length && MIN_FRAME <= buf.Length && |mac| == 6 && |ip| == 4
    requires buf[12..14] == [0x08, 0x06]
    modifies buf
    ensures r.Some? <==> AsksFor(old(buf[..]), len, ip)
    ensures r.None? ==> buf[..] == old(buf[..])
    ensures r.Some? ==> r.value <= buf.Length && buf[..r.value] == ArpReply(mac, ip, old(buf[22..28]), old(buf[28..32]))
  {
    hide ArpReply;
    r := None;
    ghost var b := buf[..];
    assert b[14..16] == buf[14..16] && b[16..18] == buf[16..18] && b[20..22] == buf[20..22] && b[38..42] == buf[38..42];
    if len >= 42 && buf[14..16] == [0, 1] && buf[16..18] == [0x08, 0x00] && buf[18] == 6 && buf[19] == 4
        && buf[20..22] == [0, 1] && buf[38..42] == ip {
      assert AsksFor(b, len, ip);
      assert buf[12..20] == buf[12..14] + buf[14..16] + buf[16..18] + [buf[18], buf[19]];
      hide AsksFor;
      var n := PutArpReply(buf, mac, ip, buf[22..28], buf[28..32]);
      r := Some(n);
    }
  }

  lemma ArpFields(f: seq<byte>, dst: seq<byte>, src: seq<byte>, op: byte, sha: seq<byte>, spa: seq<byte>,
                  tha: seq<byte>, tpa: seq<byte>)
    requires |dst| == 6 && |src| == 6 && |sha| == 6 && |spa| == 4 && |tha| == 6 && |tpa| == 4
    requires f == Padded(ArpBytes(dst, src, op, sha, spa, tha, tpa))
    ensures |f| == 60 && f[12..14] == [0x08, 0x06] && f[14..16] == [0, 1] && f[16..18] == [0x08, 0x00] && f[18] == 6
            && f[19] == 4
    ensures f[20..22] == [0, op] && f[22..28] == sha && f[28..32] == spa && f[32..38] == tha && f[38..42] == tpa
  {
    var b := ArpBytes(dst, src, op, sha, spa, tha, tpa);
    assert |f| == 60;
    hide Padded;
    assert f[..42] == b;
    hide ArpBytes;
    assert f[12..14] == b[12..14] && f[14..16] == b[14..16] && f[16..18] == b[16..18] && f[20..22] == b[20..22];
    assert f[22..28] == b[22..28] && f[28..32] == b[28..32] && f[32..38] == b[32..38] && f[38..42] == b[38..42];
  }

  /** Resolution works end to end: exactly the owner of `target` recognises the request, answers
      with its own address, and the asker reads that address out of the answer. */
  lemma ArpResolves(mac: seq<byte>, ip: seq<byte>, target: seq<byte>, peer: seq<byte>, other: seq<byte>)
    requires |mac| == 6 && |ip| == 4 && |target| == 4 && |peer| == 6 && |other| == 4
    ensures var q := ArpRequest(mac, ip, target);
            && |q| == 60 && (AsksFor(q, |q|, other) <==> other == target) && ParseArpReply(q, |q|, other).None?
            && var a := ArpReply(peer, target, q[22..28], q[28..32]);
               ParseArpReply(a, |a|, other) == (if other == target then Some(peer) else None) && !AsksFor(a, |a|, other)
  {
    hide Padded, ArpBytes;
    var q := ArpRequest(mac, ip, target);
    ArpFields(q, [255, 255, 255, 255, 255, 255], mac, 1, mac, ip, [0, 0, 0, 0, 0, 0], target);
    var a := ArpReply(peer, target, q[22..28], q[28..32]);
    ArpFields(a, mac, peer, 2, peer, target, mac, ip);
  }

  // ----- ICMP echo -----

  /** `b[..len]` is an ICMP echo request to `ip` in a plain IPv4 header. */
  predicate IsEcho(b: seq<byte>, len: nat, ip: seq<byte>)
    requires len <= |b|
  {
    && len >= 34 && b[14] == 0x45 && b[23] == 1 && b[30..34] == ip
    && 28 <= Be16(b, 16) && 14 + Be16(b, 16) <= len
    && b[34] == 8 && b[35] == 0
  }

  function EchoIcmp(rest: seq<byte>, sum: nat): (r: seq<byte>)
    requires sum < 0x1_0000
    ensures |r| == 4 + |rest|
  {
    [0, 0] + ToBe16(sum) + rest
  }

  function EchoIp(before: seq<byte>, proto: byte, sum: nat, src: seq<byte>, dst: seq<byte>): (r: seq<byte>)
    requires |before| == 8 && |src| == 4 && |dst| == 4 && sum < 0x1_0000
    ensures |r| == 20
  {
    (before + [64, proto]) + ToBe16(sum) + (src + dst)
  }

  function SealedIcmp(rest: seq<byte>): (r: seq<byte>)
    ensures |r| == 4 + |rest|
  {
    EchoIcmp(rest, Checksum(WordSum(EchoIcmp(rest, 0))))
  }

  function SealedIp(before: seq<byte>, proto: byte, src: seq<byte>, dst: seq<byte>): (r: seq<byte>)
    requires |before| == 8 && |src| == 4 && |dst| == 4
    ensures |r| == 20
  {
    EchoIp(before, proto, Checksum(WordSum(EchoIp(before, proto, 0, src, dst))), src, dst)
  }

  /** The answer to the request `b` of IPv4 length `total`: addresses swapped, type 0, fresh
      checksums; identifier, sequence number and data are the request's own. */
  function EchoReply(b: seq<byte>, total: nat, mac: seq<byte>): (r: seq<byte>)
    requires |mac| == 6 && 28 <= total && 14 + total <= |b|
    ensures |r| == 14 + total
  {
    (b[6..12] + mac + b[12..14]) + SealedIp(b[14..22], b[23], b[30..34], b[26..30]) + SealedIcmp(b[38..14 + total])
  }

  lemma SealsVerify(rest: seq<byte>, before: seq<byte>, proto: byte, src: seq<byte>, dst: seq<byte>)
    requires |before| == 8 && |src| == 4 && |dst| == 4
    ensures Verifies(WordSum(SealedIcmp(rest))) && Verifies(WordSum(SealedIp(before, proto, src, dst)))
  {
    hide WordSum, Checksum, Verifies, ToBe16, Be16, LeVal, LeBytes;
    var ip, icmp := WordSum(EchoIp(before, proto, 0, src, dst)), WordSum(EchoIcmp(rest, 0));
    FieldSum(before + [64, proto], Checksum(ip), src + dst);
    FieldSum(before + [64, proto], 0, src + dst);
    Completed(ip);
    FieldSum([0, 0], Checksum(icmp), rest);
    FieldSum([0, 0], 0, rest);
    Completed(icmp);
  }

  /** Both checksums of an answer verify, and everything the asker compares comes back unchanged. */
  lemma EchoVerifies(b: seq<byte>, total: nat, mac: seq<byte>)
    requires |mac| == 6 && 28 <= total && 14 + total <= |b|
    ensures var r := EchoReply(b, total, mac);
            && Verifies(WordSum(r[14..34])) && Verifies(WordSum(r[34..]))
            && r[38..] == b[38..14 + total] && r[34] == 0 && r[35] == 0 && r[14..22] == b[14..22] && r[22] == 64
            && r[23] == b[23]
            && r[26..30] == b[30..34] && r[30..34] == b[26..30] && r[..6] == b[6..12] && r[6..12] == mac
  {
    hide WordSum, Checksum, Verifies, ToBe16, Be16, LeVal, LeBytes;
    var r := EchoReply(b, total, mac);
    var ip, icmp := SealedIp(b[14..22], b[23], b[30..34], b[26..30]), SealedIcmp(b[38..14 + total]);
    assert r[14..34] == ip && r[34..] == icmp;
    assert r[38..] == icmp[4..] && r[34] == icmp[0] && r[35] == icmp[1];
    assert r[14..22] == ip[..8] && r[22] == ip[8] && r[23] == ip[9] && r[26..30] == ip[12..16]
           && r[30..34] == ip[16..20];
    SealsVerify(b[38..14 + total], b[14..22], b[23], b[30..34], b[26..30]);
  }

  method PutIcmp(buf: array<byte>, total: nat)
    requires 28 <= total < 0x1_0000 && 14 + total <= buf.Length && buf[34] == 8 && buf[35] == 0
    modifies buf
    ensures buf[..34] == old(buf[..34]) && buf[34..14 + total] == SealedIcmp(old(buf[38..14 + total]))
  {
    hide WordSum, Checksum, ToBe16, Patch, Be16, LeVal, LeBytes;
    ghost var head, rest := buf[..34], buf[38..14 + total];
    Put(buf, 34, [0]);
    Put(buf, 36, ToBe16(0));
    assert buf[..14 + total] == (head + [0, 0]) + ToBe16(0) + rest;
    assert buf[34..14 + total] == EchoIcmp(rest, 0);
    var sum := SumRange(buf, 34, 14 + total, 0);
    var c := Finish(sum);
    PutSum(buf, head + [0, 0], 36, c, rest);
    assert buf[34..14 + total] == buf[..14 + total][34..] == EchoIcmp(rest, c);
    assert buf[..34] == buf[..14 + total][..34];
  }

  /** The request with addresses swapped, time to live refreshed and checksum zeroed. */
  ghost function Swapped(b: seq<byte>): (r: seq<byte>)
    requires |b| >= 34
    ensures |r| == |b|
  {
    (b[..14] + (b[14..22] + [64, b[23]])) + ToBe16(0) + ((b[30..34] + b[26..30]) + b[34..])
  }

  /** The same, field by field in the order they are written. */
  lemma SwappedBy(b: seq<byte>, b1: seq<byte>, b2: seq<byte>, b3: seq<byte>, b4: seq<byte>)
    requires |b| >= 34 && b1 == Patch(b, 26, b[30..34]) && b2 == Patch(b1, 30, b[26..30])
    requires b3 == Patch(b2, 22, [64]) && b4 == Patch(b3, 24, ToBe16(0))
    ensures b4 == Swapped(b)
  {
    hide ToBe16, LeBytes, Be16, LeVal;
    var z := ToBe16(0);
    var r := Swapped(b);
    assert forall k | 0 <= k < 22 :: r[k] == b[k];
    assert r[22] == 64 && r[23] == b[23] && r[24] == z[0] && r[25] == z[1];
    assert forall k | 26 <= k < 30 :: r[k] == b[30 + (k - 26)];
    assert forall k | 30 <= k < 34 :: r[k] == b[26 + (k - 30)];
    assert forall k | 34 <= k < |b| :: r[k] == b[k];
    hide Swapped;
    forall k | 0 <= k < |b| ensures b4[k] == r[k] {
    }
  }

  /** Swaps the addresses, refreshes the time to live and zeroes the checksum field. */
  method PutIpFields(buf: array<byte>, total: nat)
    requires 28 <= total && 14 + total <= buf.Length
    modifies buf
    ensures buf[..14 + total] == Swapped(old(buf[..14 + total]))
  {
    hide ToBe16, LeBytes, Be16, LeVal, Patch, Swapped;
    var n := 14 + total;
    ghost var b := buf[..n];
    var src, dst := buf[26..30], buf[30..34];
    assert src == b[26..30] && dst == b[30..34];
    PutWithin(buf, 26, dst, n);
    ghost var b1 := buf[..n];
    PutWithin(buf, 30, src, n);
    ghost var b2 := buf[..n];
    PutWithin(buf, 22, [64], n);
    ghost var b3 := buf[..n];
    PutWithin(buf, 24, ToBe16(0), n);
    SwappedBy(b, b1, b2, b3, buf[..n]);
  }

  /** A write inside the first `n` bytes, seen as a change of those. */
  method PutWithin(buf: array<byte>, at: nat, s: seq<byte>, ghost n: nat)
    requires at + |s| <= n <= buf.Length
    modifies buf
    ensures buf[..n] == Patch(old(buf[..n]), at, s)
  {
    Put(buf, at, s);
  }

  method PutIp(buf: array<byte>, total: nat)
    requires 28 <= total && 14 + total <= buf.Length
    modifies buf
    ensures buf[..14] == old(buf[..14]) && buf[34..14 + total] == old(buf[34..14 + total])
    ensures buf[14..34] == SealedIp(old(buf[14..22]), old(buf[23]), old(buf[30..34]), old(buf[26..30]))
  {
    hide WordSum, Checksum, ToBe16, Be16, LeVal, LeBytes;
    ghost var b := buf[..14 + total];
    ghost var before, proto, src, dst, rest := b[14..22], b[23], b[30..34], b[26..30], b[34..];
    assert before == buf[14..22] && src == buf[30..34] && dst == buf[26..30] && rest == buf[34..14 + total];
    assert b[..14] == buf[..14];
    PutIpFields(buf, total);
    ghost var f := buf[..14 + total];
    assert f[14..34] == EchoIp(before, proto, 0, src, dst);
    assert buf[14..34] == f[14..34];
    var sum := SumRange(buf, 14, 34, 0);
    var c := Finish(sum);
    PutSum(buf, b[..14] + (before + [64, proto]), 24, c, (src + dst) + rest);
    ghost var r := buf[..14 + total];
    assert r[14..34] == EchoIp(before, proto, c, src, dst) && r[..14] == b[..14] && r[34..] == rest;
    assert buf[14..34] == r[14..34] && buf[..14] == r[..14] && buf[34..14 + total] == r[34..];
  }

  /** Answers an echo request to `ip` in place; anything else is left alone. */
  method HandleEcho(buf: array<byte>, len: nat, mac: seq<byte>, ip: seq<byte>) returns (r: Option<nat>)
    requires len <= buf.Length && MIN_FRAME <= buf.Length && |mac| == 6 && |ip| == 4
    modifies buf
    ensures r.Some? <==> IsEcho(old(buf[..]), len, ip)
    ensures r.None? ==> buf[..] == old(buf[..])
    ensures r.Some? ==>
            r.value <= buf.Length && buf[..r.value] == Padded(EchoReply(old(buf[..]), Be16(old(buf[..]), 16), mac))
  {
    hide Be16, EchoReply, Padded;
    r := None;
    if len >= 34 {
      var total := Be16(buf[..], 16);
      assert buf[..][30..34] == buf[30..34];
      if buf[14] == 0x45 && buf[23] == 1 && buf[30..34] == ip && 28 <= total && 14 + total <= len && buf[34] == 8
          && buf[35] == 0 {
        assert IsEcho(buf[..], len, ip);
        var n := Answer(buf, total, mac);
        r := Some(n);
      }
    }
  }

  method Answer(buf: array<byte>, total: nat, mac: seq<byte>) returns (n: nat)
    requires 28 <= total < 0x1_0000 && 14 + total <= buf.Length && MIN_FRAME <= buf.Length && |mac| == 6
             && buf[34] == 8 && buf[35] == 0
    modifies buf
    ensures n <= buf.Length && buf[..n] == Padded(EchoReply(old(buf[..]), total, mac))
  {
    hide SealedIp, SealedIcmp, Padded, Patch;
    ghost var b := buf[..];
    PutIcmp(buf, total);
    assert buf[14..22] == b[14..22] && buf[23] == b[23] && buf[30..34] == b[30..34] && buf[26..30] == b[26..30]
           && buf[..14] == b[..14] by {
      assert buf[..34] == b[..34];
      assert buf[14..22] == buf[..34][14..22] && buf[26..30] == buf[..34][26..30] && buf[30..34] == buf[..34][30..34];
    }
    PutIp(buf, total);
    ghost var tail := buf[14..14 + total];
    assert tail == buf[14..34] + buf[34..14 + total];
    var asker := buf[6..12];
    assert asker == buf[..14][6..12] == b[6..12];
    Put(buf, 0, asker);
    assert buf[12..14] == b[12..14] && buf[14..14 + total] == tail;
    Put(buf, 6, mac);
    assert buf[..14 + total] == (asker + mac + b[12..14]) + tail;
    assert buf[..14 + total] == EchoReply(b, total, mac);
    n := PadToMinFrame(buf, 14 + total);
  }

  /** What this host answers to frame `b`, if anything. */
  function Respond(b: seq<byte>, mac: seq<byte>, ip: seq<byte>): Option<seq<byte>>
    requires |mac| == 6 && |ip| == 4
  {
    if |b| >= ETH_LEN && b[12..14] == [0x08, 0x06]
        && AsksFor(b, |b|, ip) then Some(ArpReply(mac, ip, b[22..28], b[28..32]))
    else if |b| >= ETH_LEN && b[12..14] == [0x08, 0x00]
        && IsEcho(b, |b|, ip) then Some(Padded(EchoReply(b, Be16(b, 16), mac)))
    else None
  }

  /** A plain IPv4 packet with ICMP in it is answered if and only if it is an echo request to this host. */
  lemma EchoExact(b: seq<byte>, mac: seq<byte>, ip: seq<byte>)
    requires |mac| == 6 && |ip| == 4 && |b| >= 42 && b[12] == 0x08 && b[13] == 0x00 && b[14] == 0x45 && b[23] == 1
    requires 28 <= Number(b[16], b[17]) && 14 + Number(b[16], b[17]) <= |b|
    ensures Respond(b, mac, ip).Some? <==> b[34] == 8 && b[35] == 0 && b[30..34] == ip
  {
    assert b[12..14] == [b[12], b[13]];
    LeTwo(b[17], b[16]);
    hide LeVal, EchoReply, ArpReply, Padded;
  }

  /** An ARP packet for IPv4 over Ethernet is answered if and only if it asks for this host's address. */
  lemma ArpExact(b: seq<byte>, mac: seq<byte>, ip: seq<byte>)
    requires |mac| == 6 && |ip| == 4 && |b| >= 42 && b[12..20] == [0x08, 0x06, 0, 1, 0x08, 0x00, 6, 4]
    ensures Respond(b, mac, ip).Some? <==> b[20] == 0 && b[21] == 1 && b[38..42] == ip
  {
    hide EchoReply, ArpReply, Padded, IsEcho;
    var h: seq<byte> := [0x08, 0x06, 0, 1, 0x08, 0x00, 6, 4];
    forall i | 0 <= i < 8 ensures b[12 + i] == h[i] {
      assert b[12 + i] == b[12..20][i];
    }
    assert b[12..14] == [b[12], b[13]] && b[14..16] == [b[14], b[15]] && b[16..18] == [b[16], b[17]];
    assert b[20..22] == [b[20], b[21]];
  }

  /** No answer is itself answered, by any host: two of them never keep a frame going. */
  lemma AnswersEnd(b: seq<byte>, mac: seq<byte>, ip: seq<byte>, mac2: seq<byte>, ip2: seq<byte>)
    requires |mac| == 6 && |ip| == 4 && |mac2| == 6 && |ip2| == 4 && Respond(b, mac, ip).Some?
    ensures Respond(Respond(b, mac, ip).value, mac2, ip2).None?
  {
    var r := Respond(b, mac, ip).value;
    if b[12..14] == [0x08, 0x06] && AsksFor(b, |b|, ip) {
      hide Padded, ArpBytes, IsEcho, EchoReply;
      ArpFields(r, b[22..28], mac, 2, mac, ip, b[22..28], b[28..32]);
    } else {
      hide AsksFor, ArpReply;
      var e := EchoReply(b, Be16(b, 16), mac);
      EchoVerifies(b, Be16(b, 16), mac);
      hide Be16, EchoReply, Verifies, WordSum;
      EchoType(b, Be16(b, 16), mac);
      assert r[34] == e[34] && r[12..14] == e[12..14];
    }
  }

  lemma EchoType(b: seq<byte>, total: nat, mac: seq<byte>)
    requires |mac| == 6 && 28 <= total && 14 + total <= |b|
    ensures EchoReply(b, total, mac)[12..14] == b[12..14]
  {
    hide SealedIp, SealedIcmp;
  }

  lemma AsksPrefix(buf: seq<byte>, len: nat, ip: seq<byte>)
    requires len <= |buf|
    ensures AsksFor(buf, len, ip) == AsksFor(buf[..len], len, ip)
    ensures len >= 42 ==> buf[..len][22..28] == buf[22..28] && buf[..len][28..32] == buf[28..32]
  {
    var b := buf[..len];
    if len >= 42 {
      assert b[14..16] == buf[14..16] && b[16..18] == buf[16..18] && b[20..22] == buf[20..22]
             && b[38..42] == buf[38..42];
      assert b[22..28] == buf[22..28] && b[28..32] == buf[28..32];
    }
  }

  lemma EchoPrefix(buf: seq<byte>, len: nat, ip: seq<byte>, mac: seq<byte>)
    requires len <= |buf| && |mac| == 6
    ensures IsEcho(buf, len, ip) == IsEcho(buf[..len], len, ip)
    ensures IsEcho(buf, len, ip) ==> Be16(buf[..len], 16) == Be16(buf, 16)
    ensures IsEcho(buf, len, ip) ==> EchoReply(buf[..len], Be16(buf, 16), mac) == EchoReply(buf, Be16(buf, 16), mac)
  {
    hide SealedIp, SealedIcmp;
    var b := buf[..len];
    if len >= 34 {
      SameWords(buf, len, 16);
      hide Be16;
      assert b[30..34] == buf[30..34];
      var total := Be16(buf, 16);
      if 28 <= total && 14 + total <= len {
        assert b[6..12] == buf[6..12] && b[12..14] == buf[12..14] && b[14..22] == buf[14..22]
               && b[26..30] == buf[26..30];
        assert b[38..14 + total] == buf[38..14 + total];
      }
    }
  }

  /** The responder: exactly the requests for this host are turned into their answers. */
  method HandleFrame(buf: array<byte>, len: nat, mac: seq<byte>, ip: seq<byte>) returns (r: Option<nat>)
    requires len <= buf.Length && MIN_FRAME <= buf.Length && |mac| == 6 && |ip| == 4
    modifies buf
    ensures var answer := Respond(old(buf[..len]), mac, ip);
            && (r.Some? <==> answer.Some?)
            && (r.Some? ==> r.value <= buf.Length && buf[..r.value] == answer.value)
    ensures r.None? ==> buf[..] == old(buf[..])
  {
    hide AsksFor, IsEcho, ArpReply, EchoReply, Padded, Be16;
    r := None;
    ghost var b := buf[..];
    assert buf[..len] == b[..len];
    if len >= ETH_LEN {
      assert b[..len][12..14] == buf[12..14];
      AsksPrefix(b, len, ip);
      EchoPrefix(b, len, ip, mac);
      if buf[12..14] == [0x08, 0x06] {
        AsksLong(b, len, ip);
        r := HandleArp(buf, len, mac, ip);
      } else if buf[12..14] == [0x08, 0x00] {
        r := HandleEcho(buf, len, mac, ip);
      }
    }
  }

  lemma AsksLong(b: seq<byte>, len: nat, ip: seq<byte>)
    requires len <= |b|
    ensures AsksFor(b, len, ip) ==> len >= 42
  {
  }

  /** Nothing that parses as a TCP segment is answered here. */
  lemma SegmentNotAnswered(b: seq<byte>, mac: seq<byte>, ip: seq<byte>, peer: seq<byte>)
    requires |mac| == 6 && |ip| == 4 && |peer| == 4 && Parse(b, |b|, peer).Some?
    ensures Respond(b, mac, ip).None?
  {
  }

  lemma ArpPrefix(buf: seq<byte>, len: nat, target: seq<byte>)
    requires len <= |buf|
    ensures ParseArpReply(buf, len, target) == ParseArpReply(buf[..len], len, target)
  {
    var b := buf[..len];
    if len >= 42 {
      assert b[12..14] == buf[12..14] && b[14..16] == buf[14..16] && b[16..18] == buf[16..18]
             && b[20..22] == buf[20..22];
      assert b[28..32] == buf[28..32] && b[22..28] == buf[22..28];
    }
  }
}
