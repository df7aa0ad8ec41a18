/** The IPv6 half of a dual-stack lease: the IPv4 address embedded in the low 32 bits of the tunnel prefix. */
module Ipv6 {
  import opened Arithmetic
  import opened Ipam
  import opened Results

  type byte = x: int | 0 <= x < 256

  /** net.IP: 4 or 16 bytes. */
  type Ip = ip: seq<byte> | |ip| == 4 || |ip| == 16 witness [0, 0, 0, 0]

  const MAPPED_PREFIX: seq<byte> := [0, 0, 0, 0, 0, 0, 0, 0, 0, 0, 0xff, 0xff]

  function To4(ip: Ip): Option<Ip> {
    if |ip| == 4 then Some(ip)
    else if ip[..12] == MAPPED_PREFIX then Some(ip[12..])
    else None
  }

  function To16(ip: Ip): Ip {
    if |ip| == 4 then MAPPED_PREFIX + ip else ip
  }

  function FromUint32(v: uint32): (ip: Ip)
    ensures |ip| == 4
  {
    [v / 0x100_0000, v / 0x1_0000 % 0x100, v / 0x100 % 0x100, v % 0x100]
  }

  function ToUint32(ip: Ip): uint32
    requires |ip| == 4
  {
    var b0: int, b1: int, b2: int, b3: int := ip[0], ip[1], ip[2], ip[3];
    b0 * 0x100_0000 + b1 * 0x1_0000 + b2 * 0x100 + b3
  }

  /** A parsed prefix: the masked base address and the prefix length. */
  datatype Prefix = Prefix(base: Ip, ones: nat)

  function Derive(v4: Ip, prefix: Option<Prefix>): Result<Ip> {
    var four := To4(v4);
    if four.None? then Failure("not an IPv4 address")
    else if prefix.None? then Failure("invalid IPv6 prefix")
    else
      var base := To16(prefix.value.base);
      if To4(prefix.value.base).Some? then Failure("not an IPv6 prefix")
      else if prefix.value.ones > 96 then Failure("IPv6 prefix is too small")
      else Success(base[..12] + four.value)
  }

  /** Bit `i` of an address, counted from the most significant. */
  function Bit(ip: Ip, i: nat): int
    requires i < 8 * |ip|
  {
    ip[i / 8] / Pow2(7 - i % 8) % 2
  }

  ghost predicate InPrefix(ip: Ip, prefix: Prefix) {
    && |ip| == |prefix.base|
    && prefix.ones <= 8 * |ip|
    && forall i :: 0 <= i < prefix.ones ==> Bit(ip, i) == Bit(prefix.base, i)
  }

  lemma WordToBytes(v: uint32)
    ensures ToUint32(FromUint32(v)) == v
  {
    assert v / 0x1_0000 == v / 0x100_0000 * 0x100 + v / 0x1_0000 % 0x100;
    assert v / 0x100 == v / 0x1_0000 * 0x100 + v / 0x100 % 0x100;
  }

  lemma BytesOf(b0: byte, b1: byte, b2: byte, b3: byte)
    ensures var w: int := (b0 as int) * 0x100_0000 + (b1 as int) * 0x1_0000 + (b2 as int) * 0x100 + b3 as int;
            && w / 0x100_0000 == b0
            && w / 0x1_0000 == (b0 as int) * 0x100 + b1 as int
            && w / 0x100 % 0x100 == b2
            && w % 0x100 == b3
  {
    var w: int := (b0 as int) * 0x100_0000 + (b1 as int) * 0x1_0000 + (b2 as int) * 0x100 + b3 as int;
    DivModUnique(w, 0x100_0000, b0, (b1 as int) * 0x1_0000 + (b2 as int) * 0x100 + b3 as int);
    DivModUnique(w, 0x1_0000, (b0 as int) * 0x100 + b1 as int, (b2 as int) * 0x100 + b3 as int);
    DivModUnique(w, 0x100, (b0 as int) * 0x1_0000 + (b1 as int) * 0x100 + b2 as int, b3);
  }

  lemma BytesToWord(ip: Ip)
    requires |ip| == 4
    ensures FromUint32(ToUint32(ip)) == ip
  {
    BytesOf(ip[0], ip[1], ip[2], ip[3]);
  }

  /** An address survives the trip through its 32-bit word, both ways. */
  lemma WordRoundTrip(v: uint32, ip: Ip)
    requires |ip| == 4
    ensures ToUint32(FromUint32(v)) == v
    ensures FromUint32(ToUint32(ip)) == ip
    // Most significant byte first.
    ensures var b := FromUint32(v);
            b[0] as int * 0x100_0000 + b[1] as int * 0x1_0000 + b[2] as int * 0x100 + b[3] as int == v
  {
    WordToBytes(v);
    BytesToWord(ip);
  }

  /** Which inputs are accepted; the result is a genuine IPv6 address inside the prefix. */
  lemma DeriveAccepts(v4: Ip, prefix: Option<Prefix>)
    ensures Derive(v4, prefix).Success? <==>
              To4(v4).Some? && prefix.Some? && To4(prefix.value.base).None? && prefix.value.ones <= 96
    ensures |v4| == 4 ==> To4(v4) == Some(v4)
    ensures prefix.Some? ==>
              var base := prefix.value.base;
              To4(base).None? <==> |base| == 16 && base[..12] != [0, 0, 0, 0, 0, 0, 0, 0, 0, 0, 0xff, 0xff]
    ensures Derive(v4, prefix).Success? ==>
              var v6 := Derive(v4, prefix).value;
              && |v6| == 16 && To4(v6).None?
              && InPrefix(v6, prefix.value)
              && v6[12..] == To4(v4).value
  {
    if Derive(v4, prefix).Success? {
      var v6, base := Derive(v4, prefix).value, prefix.value.base;
      assert v6[..12] == base[..12];
      forall i | 0 <= i < prefix.value.ones
        ensures Bit(v6, i) == Bit(base, i)
      {
        assert i / 8 < 12;
        assert v6[i / 8] == v6[..12][i / 8];
      }
    }
  }

  /** Under one prefix, distinct leases get distinct IPv6 addresses. */
  lemma DeriveInjective(a: uint32, b: uint32, prefix: Option<Prefix>)
    requires Derive(FromUint32(a), prefix).Success?
    requires Derive(FromUint32(a), prefix) == Derive(FromUint32(b), prefix)
    ensures a == b
  {
    DeriveAccepts(FromUint32(a), prefix);
    DeriveAccepts(FromUint32(b), prefix);
    WordRoundTrip(a, FromUint32(a));
    WordRoundTrip(b, FromUint32(b));
  }
}
