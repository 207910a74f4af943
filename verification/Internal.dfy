/**
  Which addresses count as internal (services/api/src/connectors/safe-fetch.ts:43-58,
  95-124), on the octets of an IPv4 address and the hextets of an IPv6 address.
*/
module Internal {
  import opened Base

  /** The verdict on an IPv4 address goes by its first two octets. */
  function InternalIpv4(a: nat, b: nat): bool {
    a == 0 || a == 10 || a == 127 || (a == 169 && b == 254) || (a == 172 && 16 <= b <= 31) || (a == 192 && b == 168)
    || (a == 100 && 64 <= b <= 127) || a >= 224
  }

  function InternalHextets(h: seq<nat>): bool
    requires |h| == 8
  {
    var firstFiveZero := h[0] == 0 && h[1] == 0 && h[2] == 0 && h[3] == 0 && h[4] == 0;
    if firstFiveZero && h[5] == 0xffff then InternalIpv4(h[6] / 256, h[6] % 256)
    else if firstFiveZero && h[5] == 0 && (h[6] != 0 || h[7] > 1) then InternalIpv4(h[6] / 256, h[6] % 256)
    else if firstFiveZero && h[5] == 0 && h[6] == 0 then true
    else h[0] / 256 == 0xff || h[0] / 512 == 0xfc00 / 512 || h[0] / 64 == 0xfe80 / 64
  }

  // ------------------------------------------------------------------ IPv4 by blocks

  /** An address as a number. */
  function Address(a: nat, b: nat, c: nat, d: nat): nat { a * 0x1000000 + b * 0x10000 + c * 0x100 + d }

  /** From the first address with two octets to the last with two others. */
  predicate InBlock(address: nat, a: nat, b: nat, c: nat, d: nat) {
    Address(a, b, 0, 0) <= address <= Address(c, d, 255, 255)
  }

  lemma BlockIs(address: nat, a: nat, b: nat, c: nat, d: nat, w: nat, x: nat, y: nat, z: nat)
    requires address == Address(a, b, c, d) && a <= 255 && b <= 255 && c <= 255 && d <= 255
    requires w <= 255 && x <= 255 && y <= 255 && z <= 255
    ensures InBlock(address, w, x, y, z) <==> (w < a || (w == a && x <= b)) && (a < y || (a == y && b <= z))
  {
  }

  /** The internal addresses by their blocks: this network, private use, shared address
      space, loopback, link-local, and all from multicast up. */
  lemma InternalIffListed(a: nat, b: nat, c: nat, d: nat, address: nat)
    requires address == Address(a, b, c, d) && a <= 255 && b <= 255 && c <= 255 && d <= 255
    ensures InternalIpv4(a, b)
            <==> || InBlock(address, 0, 0, 0, 255) || InBlock(address, 10, 0, 10, 255)
                 || InBlock(address, 100, 64, 100, 127) || InBlock(address, 127, 0, 127, 255)
                 || InBlock(address, 169, 254, 169, 254) || InBlock(address, 172, 16, 172, 31)
                 || InBlock(address, 192, 168, 192, 168) || InBlock(address, 224, 0, 255, 255)
  {
    BlockIs(address, a, b, c, d, 0, 0, 0, 255);
    BlockIs(address, a, b, c, d, 10, 0, 10, 255);
    BlockIs(address, a, b, c, d, 100, 64, 100, 127);
    BlockIs(address, a, b, c, d, 127, 0, 127, 255);
    BlockIs(address, a, b, c, d, 169, 254, 169, 254);
    BlockIs(address, a, b, c, d, 172, 16, 172, 31);
    BlockIs(address, a, b, c, d, 192, 168, 192, 168);
    BlockIs(address, a, b, c, d, 224, 0, 255, 255);
  }

  // ------------------------------------------------------------------ IPv6 by blocks

  /** The first `n` hextets are zero. */
  predicate LeadZeros(h: seq<nat>, n: nat)
    requires n <= |h|
  {
    forall i :: 0 <= i < n ==> h[i] == 0
  }

  /** A mapped IPv4 address, and one behind six zeros, is judged as the IPv4 address,
      but for the unspecified and the loopback address, which are internal. Else it is
      internal when unique local, link-local or multicast. */
  lemma HextetsInternalIff(h: seq<nat>)
    requires |h| == 8 && forall i :: 0 <= i < 8 ==> h[i] <= 0xffff
    ensures InternalHextets(h)
            <==> if LeadZeros(h, 5) && h[5] == 0xffff then InternalIpv4(h[6] / 256, h[6] % 256)
                 else if LeadZeros(h, 6) then (h[6] == 0 && h[7] <= 1) || InternalIpv4(h[6] / 256, h[6] % 256)
                 else 0xfc00 <= h[0] <= 0xfdff || 0xfe80 <= h[0] <= 0xfebf || 0xff00 <= h[0]
  {
  }
}
