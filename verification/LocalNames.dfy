/** DNS rebinding protection: private addresses, allowed local names, and the screening of answers. */
module LocalNames {
  import opened Text
  import opened Messages

  // ---------------------------------------------------------------- addresses (Go's net.IP)

  ghost predicate IsBytes(ip: seq<nat>) {
    forall i :: 0 <= i < |ip| ==> ip[i] < 256
  }

  predicate IsMapped(ip: seq<nat>) {
    |ip| == 16 && (forall i :: 0 <= i < 10 ==> ip[i] == 0) && ip[10] == 255 && ip[11] == 255
  }

  /** The four bytes of an IPv4 address, in its short form or mapped into IPv6. */
  function To4(ip: seq<nat>): (r: Option<seq<nat>>)
    ensures r.Some? ==> |r.value| == 4
  {
    if |ip| == 4 then Some(ip) else if IsMapped(ip) then Some(ip[12..]) else None
  }

  predicate IsUnspecified(ip: seq<nat>) {
    To4(ip) == Some([0, 0, 0, 0]) || (|ip| == 16 && forall i :: 0 <= i < 16 ==> ip[i] == 0)
  }

  predicate IsLoopback(ip: seq<nat>) {
    match To4(ip)
    case Some(ip4) => ip4[0] == 127
    case None => |ip| == 16 && ip[15] == 1 && forall i :: 0 <= i < 15 ==> ip[i] == 0
  }

  predicate IsPrivate(ip: seq<nat>) {
    match To4(ip)
    case Some(ip4) =>
      || ip4[0] == 10
      || (ip4[0] == 172 && ip4[1] / 16 == 1)        // ip4[1] & 0xf0 == 16
      || (ip4[0] == 192 && ip4[1] == 168)
    case None => |ip| == 16 && ip[0] / 2 == 0x7e    // ip[0] & 0xfe == 0xfc
  }

  predicate IsMulticast(ip: seq<nat>) {
    match To4(ip)
    case Some(ip4) => ip4[0] / 16 == 0xe            // ip4[0] & 0xf0 == 0xe0
    case None => |ip| == 16 && ip[0] == 0xff
  }

  predicate IsLinkLocalMulticast(ip: seq<nat>) {
    match To4(ip)
    case Some(ip4) => ip4[0] == 224 && ip4[1] == 0 && ip4[2] == 0
    case None => |ip| == 16 && ip[0] == 0xff && ip[1] % 16 == 2
  }

  predicate IsLinkLocalUnicast(ip: seq<nat>) {
    match To4(ip)
    case Some(ip4) => ip4[0] == 169 && ip4[1] == 254
    case None => |ip| == 16 && ip[0] == 0xfe && ip[1] / 64 == 2   // ip[1] & 0xc0 == 0x80
  }

  /** 100.64.0.0/10. */
  predicate IsCarrierGradeNat(ip4: seq<nat>)
    requires |ip4| == 4
  {
    ip4[0] == 100 && ip4[1] / 64 == 1
  }

  predicate IsPrivateOrLocalIP(ip: seq<nat>) {
    if ip == [] then false
    else if IsLoopback(ip) || IsPrivate(ip) || IsLinkLocalUnicast(ip) || IsLinkLocalMulticast(ip) || IsMulticast(ip) || IsUnspecified(ip)
    then true
    else To4(ip).Some? && IsCarrierGradeNat(To4(ip).value)
  }

  function Number(bytes: seq<nat>): nat {
    if bytes == [] then 0 else Number(Front(bytes)) * 256 + Last(bytes)
  }

  lemma NumberOf4(ip4: seq<nat>)
    requires |ip4| == 4
    ensures Number(ip4) == ip4[0] * 0x100_0000 + ip4[1] * 0x1_0000 + ip4[2] * 0x100 + ip4[3]
  {
    var a, b, c, d := ip4[0], ip4[1], ip4[2], ip4[3];
    NumberSnoc([], a);
    NumberSnoc([a], b);
    NumberSnoc([a, b], c);
    NumberSnoc([a, b, c], d);
    assert [] + [a] == [a] && [a] + [b] == [a, b] && [a, b] + [c] == [a, b, c];
    SameElements([a, b, c] + [d], ip4);
  }

  lemma NumberSnoc(bytes: seq<nat>, last: nat)
    ensures Number(bytes + [last]) == Number(bytes) * 256 + last
  {
    FrontOfAppend(bytes, last);
  }

  /** The numbers of the IPv4 addresses that are refused: 0.0.0.0, 10/8, 100.64/10, 127/8, 169.254/16,
      172.16/12, 192.168/16 and 224/4. */
  predicate InLocalRange4(n: nat) {
    || n == 0
    || 0x0A00_0000 <= n <= 0x0AFF_FFFF
    || 0x6440_0000 <= n <= 0x647F_FFFF
    || 0x7F00_0000 <= n <= 0x7FFF_FFFF
    || 0xA9FE_0000 <= n <= 0xA9FE_FFFF
    || 0xAC10_0000 <= n <= 0xAC1F_FFFF
    || 0xC0A8_0000 <= n <= 0xC0A8_FFFF
    || 0xE000_0000 <= n <= 0xEFFF_FFFF
  }

  predicate LocalBytes(a: nat, b: nat, c: nat, d: nat) {
    || (a == 0 && b == 0 && c == 0 && d == 0)
    || a == 10 || a == 127 || a / 16 == 0xe
    || (a == 172 && b / 16 == 1) || (a == 192 && b == 168)
    || (a == 169 && b == 254) || (a == 100 && b / 64 == 1)
    || (a == 224 && b == 0 && c == 0)
  }

  lemma LocalBytesRange(a: nat, b: nat, c: nat, d: nat)
    requires a < 256 && b < 256 && c < 256 && d < 256
    ensures LocalBytes(a, b, c, d) <==> InLocalRange4(a * 0x100_0000 + b * 0x1_0000 + c * 0x100 + d)
  {
  }

  /** An IPv4 address, short or mapped, is refused exactly when its number lies in those ranges. */
  lemma LocalIPv4(ip: seq<nat>)
    requires IsBytes(ip) && To4(ip).Some?
    ensures IsPrivateOrLocalIP(ip) <==> InLocalRange4(Number(To4(ip).value))
  {
    var ip4 := To4(ip).value;
    NumberOf4(ip4);
    BytesOf4(ip);
    LocalBytesRange(ip4[0], ip4[1], ip4[2], ip4[3]);
    ZeroQuad(ip4);
    assert IsMulticast(ip) <==> ip4[0] / 16 == 0xe;
  }

  lemma ZeroQuad(ip4: seq<nat>)
    requires |ip4| == 4
    ensures ip4 == [0, 0, 0, 0] <==> ip4[0] == ip4[1] == ip4[2] == ip4[3] == 0
  {
  }

  lemma BytesOf4(ip: seq<nat>)
    requires IsBytes(ip) && To4(ip).Some?
    ensures forall i :: 0 <= i < 4 ==> To4(ip).value[i] < 256
  {
    assert |ip| == 16 ==> forall i :: 0 <= i < 4 ==> ip[12..][i] == ip[12 + i];
  }

  /** A pure IPv6 address is refused exactly when it is :: or ::1 or its first group lies in fc00::/7,
      fe80::/10 or ff00::/8. */
  lemma LocalIPv6(ip: seq<nat>)
    requires IsBytes(ip) && |ip| == 16 && !IsMapped(ip)
    ensures var group := ip[0] * 256 + ip[1];
            IsPrivateOrLocalIP(ip) <==>
              || 0xfc00 <= group <= 0xfdff
              || 0xfe80 <= group <= 0xfebf
              || 0xff00 <= group <= 0xffff
              || ((forall i :: 0 <= i < 15 ==> ip[i] == 0) && ip[15] <= 1)
  {
  }

  /** Anything that is neither 4 nor 16 bytes long passes. */
  lemma OddLengthsPass(ip: seq<nat>)
    requires |ip| != 4 && |ip| != 16
    ensures !IsPrivateOrLocalIP(ip)
  {
  }

  // ---------------------------------------------------------------- allowed names

  predicate PatternAllows(p: string, d: string) {
    var pat := ToLower(TrimSuffix(p, "."));
    if HasPrefix(pat, "*.") then
      var suffix := TrimPrefix(pat, "*.");
      d == suffix || HasSuffix(d, "." + suffix)
    else pat == d
  }

  predicate AllowedLocal(domain: string, patterns: seq<string>) {
    SomeAllows(patterns, |patterns|, ToLower(TrimSuffix(domain, ".")))
  }

  /** One of the first `n` patterns allows the name. */
  predicate SomeAllows(patterns: seq<string>, n: nat, d: string)
    requires n <= |patterns|
  {
    exists i :: 0 <= i < n && PatternAllows(patterns[i], d)
  }

  lemma NextAllows(patterns: seq<string>, n: nat, d: string)
    requires n < |patterns|
    ensures SomeAllows(patterns, n + 1, d) <==> SomeAllows(patterns, n, d) || PatternAllows(patterns[n], d)
    ensures PatternAllows(patterns[n], d) ==> SomeAllows(patterns, |patterns|, d)
  {
  }

  method IsAllowedLocalDomain(domain: string, patterns: seq<string>) returns (b: bool)
    ensures b <==> AllowedLocal(domain, patterns)
  {
    var d := ToLower(TrimSuffix(domain, "."));
    for i := 0 to |patterns|
      invariant !SomeAllows(patterns, i, d)
    {
      NextAllows(patterns, i, d);
      if PatternAllows(patterns[i], d) { return true; }
    }
    b := false;
  }

  // ---------------------------------------------------------------- screening

  predicate PrivateAddress(rdata: RData) {
    match rdata
    case A(ip) => IsPrivateOrLocalIP(ip)
    case AAAA(ip) => IsPrivateOrLocalIP(ip)
    case _ => false
  }

  /** Some address record of the answer is private or local. */
  predicate RevealsLocal(answer: seq<RecordValue>) {
    exists i :: 0 <= i < |answer| && PrivateAddress(answer[i].rdata)
  }

  lemma AddressesRevealed(resp: Msg)
    ensures RevealsLocal(resp.Value().answer) <==> exists i ::
      && 0 <= i < |resp.answer|
      && (resp.answer[i].rdata.A? || resp.answer[i].rdata.AAAA?) && IsPrivateOrLocalIP(resp.answer[i].rdata.ip)
  {
    var answer := resp.Value().answer;
    assert forall i :: 0 <= i < |answer| ==> answer[i].rdata == resp.answer[i].rdata;
    if RevealsLocal(answer) {
      var i :| 0 <= i < |answer| && PrivateAddress(answer[i].rdata);
      assert resp.answer[i].rdata == answer[i].rdata;
    }
    if i :| 0 <= i < |resp.answer| && (resp.answer[i].rdata.A? || resp.answer[i].rdata.AAAA?) && IsPrivateOrLocalIP(resp.answer[i].rdata.ip) {
      assert PrivateAddress(answer[i].rdata);
    }
  }

  method FilterDNSRebinding(resp: Msg, domain: string, patterns: seq<string>) returns (b: bool)
    ensures b <==> !AllowedLocal(domain, patterns) && RevealsLocal(resp.Value().answer)
    ensures b <==> !AllowedLocal(domain, patterns) && exists i ::
      && 0 <= i < |resp.answer|
      && (resp.answer[i].rdata.A? || resp.answer[i].rdata.AAAA?) && IsPrivateOrLocalIP(resp.answer[i].rdata.ip)
  {
    AddressesRevealed(resp);
    if |resp.answer| == 0 { return false; }
    var allowed := IsAllowedLocalDomain(domain, patterns);
    if allowed { return false; }
    ghost var answer := resp.Value().answer;
    for i := 0 to |resp.answer|
      invariant forall k :: 0 <= k < i ==> !PrivateAddress(answer[k].rdata)
    {
      assert answer[i].rdata == resp.answer[i].rdata;
      if PrivateAddress(resp.answer[i].rdata) { return true; }
    }
    b := false;
  }
}
