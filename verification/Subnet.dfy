/**
 Enumerating the addresses of a subnet: a byte-carry increment in place, and a loop that runs
 until the address leaves the subnet. Addresses are arrays of bytes, most significant first; a
 subnet is a base address and the number of host bits.
 */
module Subnet {
  import opened Streams

  lemma {:induction false} Pow2Add(a: nat, b: nat)
    ensures Pow2(a + b) == Pow2(a) * Pow2(b)
  {
    if a > 0 {
      Pow2Add(a - 1, b);
      assert Pow2(a + b) == 2 * Pow2(a - 1 + b);
    }
  }

  /** An address is determined by its number. */
  lemma {:induction false} ValueInjective(a: seq<byte>, b: seq<byte>)
    requires |a| == |b| && BigEndianValue(a) == BigEndianValue(b)
    ensures a == b
  {
    if a != [] {
      var n := |a| - 1;
      ValueInjective(a[..n], b[..n]);
      assert a == a[..n] + [a[n]] && b == b[..n] + [b[n]];
    }
  }

  // ---- The increment ----

  /** Addition of one with carry, on the whole address. */
  function Next(ip: seq<byte>): (r: seq<byte>)
    ensures |r| == |ip|
  {
    if ip == [] then []
    else
      var n := |ip| - 1;
      if ip[n] < 255 then ip[..n] + [ip[n] + 1] else Next(ip[..n]) + [0]
  }

  function Wrap(x: nat, size: nat): nat {
    if x == size then 0 else x
  }

  lemma WrapIsMod(x: nat, size: nat)
    requires 0 < size && x <= size
    ensures Wrap(x, size) == x % size
  {
    if x < size {
      assert x % size == x;
    } else {
      assert size % size == 0;
    }
  }

  lemma {:induction false} NextWraps(ip: seq<byte>)
    ensures BigEndianValue(Next(ip)) == Wrap(BigEndianValue(ip) + 1, Pow2(8 * |ip|))
  {
    if ip != [] {
      var n := |ip| - 1;
      var r := Next(ip);
      Pow2Byte(n);
      if ip[n] < 255 {
        assert r[..n] == ip[..n];
      } else {
        NextWraps(ip[..n]);
        assert r[..n] == Next(ip[..n]);
      }
    }
  }

  /** The increment is addition of one, modulo the number of addresses. */
  lemma NextValue(ip: seq<byte>)
    ensures BigEndianValue(Next(ip)) == (BigEndianValue(ip) + 1) % Pow2(8 * |ip|)
  {
    hide Pow2, BigEndianValue, Next, Wrap;
    NextWraps(ip);
    WrapIsMod(BigEndianValue(ip) + 1, Pow2(8 * |ip|));
  }

  /** incIP */
  method IncIp(ip: array<byte>)
    modifies ip
    ensures ip[..] == Next(old(ip[..]))
  {
    ghost var start := ip[..];
    assert start[..ip.Length] == start;
    var j := ip.Length - 1;
    while j >= 0
      invariant -1 <= j < ip.Length
      invariant ip[..j + 1] == start[..j + 1]
      invariant forall k | j < k < ip.Length :: ip[k] == 0
      invariant Next(start) == Next(start[..j + 1]) + ip[j + 1..]
    {
      ghost var before := ip[..];
      assert start[..j + 1][..j] == start[..j] && start[..j + 1][j] == ip[j];
      ip[j] := if ip[j] == 255 then 0 else ip[j] + 1;
      assert ip[j + 1..] == before[j + 1..];
      assert ip[..j] == before[..j];
      assert ip[j..] == [ip[j]] + ip[j + 1..];
      if ip[j] > 0 {
        assert Next(start[..j + 1]) == start[..j] + [ip[j]];
        assert ip[..] == ip[..j] + ip[j..];
        return;
      }
      assert Next(start[..j + 1]) == Next(start[..j]) + [0];
      j := j - 1;
    }
    assert ip[..] == ip[0..];
  }

  // ---- Masks ----

  /** How many host bits fall into byte i of an address of n bytes. */
  function HostBits(n: nat, i: nat, h: nat): (k: nat)
    requires i < n
    ensures k <= 8
  {
    var below := 8 * (n - 1 - i);
    if h <= below then 0 else if h - below >= 8 then 8 else h - below
  }

  /** A byte with its k low bits cleared: b & (0xFF << k). */
  function MaskByte(b: byte, k: nat): byte
    requires k <= 8
  {
    RemainderFits(b, Pow2(k));
    b - b % Pow2(k)
  }

  lemma RemainderFits(b: nat, m: nat)
    requires m > 0
    ensures 0 <= b % m <= b
  {
    if b >= m {
      assert b % m < m;
    } else {
      assert b % m == b;
    }
  }

  /** An address with its h low bits cleared. */
  function Masked(ip: seq<byte>, h: nat): (r: seq<byte>)
    ensures |r| == |ip|
  {
    if ip == [] then []
    else
      var n := |ip| - 1;
      Masked(ip[..n], if h <= 8 then 0 else h - 8) + [MaskByte(ip[n], if h <= 8 then h else 8)]
  }

  lemma {:induction false} MaskedAt(ip: seq<byte>, h: nat, i: nat)
    requires i < |ip|
    ensures Masked(ip, h)[i] == MaskByte(ip[i], HostBits(|ip|, i, h))
  {
    hide MaskByte, Pow2;
    var n := |ip| - 1;
    var rest := if h <= 8 then 0 else h - 8;
    assert Masked(ip, h) == Masked(ip[..n], rest) + [MaskByte(ip[n], if h <= 8 then h else 8)];
    if i < n {
      MaskedAt(ip[..n], rest, i);
      assert HostBits(n, i, rest) == HostBits(n + 1, i, h);
    }
  }

  lemma ModUnique(v: int, m: nat, q: int, r: nat)
    requires 0 <= r < m && v == q * m + r
    ensures v / m == q && v % m == r
  {
    var d := v / m - q;
    assert v % m == r - d * m;
    assert d > 0 ==> d * m >= m;
    assert d < 0 ==> d * m <= 0 - m;
  }

  lemma ValueSnoc(top: seq<byte>, b: byte)
    ensures BigEndianValue(top + [b]) == 256 * BigEndianValue(top) + b
  {
    assert (top + [b])[..|top|] == top;
  }

  function RoundDown(v: nat, size: nat): nat
    requires size > 0
  {
    v / size * size
  }

  /** Clearing the low bits rounds down to a multiple of a power of two. */
  lemma {:induction false} MaskedValue(ip: seq<byte>, h: nat)
    requires h <= 8 * |ip|
    ensures BigEndianValue(Masked(ip, h)) == RoundDown(BigEndianValue(ip), Pow2(h))
  {
    hide RoundDown, MaskByte, Pow2;
    if ip == [] {
      RoundDownZero(Pow2(h));
    } else {
      var n := |ip| - 1;
      var top, b := ip[..n], ip[n];
      var rest := if h <= 8 then 0 else h - 8;
      MaskedValue(top, rest);
      ValueSnoc(Masked(top, rest), MaskByte(b, if h <= 8 then h else 8));
      if h <= 8 {
        LowByte(BigEndianValue(top), b, h);
      } else {
        HighBytes(BigEndianValue(top), b, h);
      }
    }
  }

  lemma RoundDownZero(size: nat)
    requires size > 0
    ensures RoundDown(0, size) == 0
  {
  }

  lemma RoundDownTo(v: nat, size: nat, q: nat, r: nat)
    requires r < size && v == q * size + r
    ensures RoundDown(v, size) == v - r
  {
    ModUnique(v, size, q, r);
  }

  lemma LowByte(a: nat, b: byte, h: nat)
    requires h <= 8
    ensures 256 * RoundDown(a, Pow2(0)) + MaskByte(b, h) == RoundDown(256 * a + b, Pow2(h))
  {
    hide RoundDown;
    Pow2Byte(0);
    Pow2Add(h, 8 - h);
    DividesByte(a, b, Pow2(h), Pow2(8 - h));
    RoundDownTo(a, Pow2(0), a, 0);
  }

  lemma DividesByte(a: nat, b: byte, p: nat, c: nat)
    requires p > 0 && p * c == 256
    ensures RoundDown(256 * a + b, p) == 256 * a + (b - b % p)
  {
    hide RoundDown;
    var q, r := b / p, b % p;
    var k := a * c + q;
    assert k * p == 256 * a + q * p by {
      assert (a * c) * p == a * (p * c);
      assert (a * c + q) * p == (a * c) * p + q * p;
    }
    assert b == q * p + r by {
      assert b == p * q + r;
    }
    RoundDownTo(256 * a + b, p, k, r);
  }

  lemma HighBytes(a: nat, b: byte, h: nat)
    requires h >= 8
    ensures 256 * RoundDown(a, Pow2(h - 8)) + MaskByte(b, 8) == RoundDown(256 * a + b, Pow2(h))
  {
    Pow2Byte(0);
    Pow2Add(8, h - 8);
    ClearedByte(b);
    hide RoundDown, Pow2, MaskByte;
    RoundDownByte(a, b, Pow2(h - 8));
  }

  lemma ClearedByte(b: byte)
    ensures Pow2(8) == 256 && MaskByte(b, 8) == 0
  {
    Pow2Byte(0);
    assert b % 256 == b;
  }

  lemma RoundDownByte(a: nat, b: byte, p: nat)
    requires p > 0
    ensures RoundDown(256 * a + b, 256 * p) == 256 * RoundDown(a, p)
  {
    var q, r := Quotient(a, p);
    hide RoundDown;
    assert q * (256 * p) == 256 * (q * p);
    RoundDownTo(256 * a + b, 256 * p, q, 256 * r + b);
  }

  /** ip.Mask */
  method MaskIp(ip: array<byte>, h: nat) returns (out: array<byte>)
    ensures fresh(out) && out[..] == Masked(ip[..], h)
  {
    out := new byte[ip.Length];
    var n := ip.Length;
    for i := 0 to n
      invariant ip[..] == old(ip[..])
      invariant forall j | 0 <= j < i :: out[j] == MaskByte(ip[j], HostBits(n, j, h))
    {
      out[i] := MaskByte(ip[i], HostBits(n, i, h));
    }
    forall j | 0 <= j < n
      ensures out[j] == Masked(ip[..], h)[j]
    {
      MaskedAt(ip[..], h, j);
    }
  }

  /** ipNet.Contains: the masked bytes agree with the network's. */
  method Contains(net: array<byte>, h: nat, ip: array<byte>) returns (inside: bool)
    requires net.Length == ip.Length
    ensures inside <==> Masked(ip[..], h) == Masked(net[..], h)
  {
    var n := ip.Length;
    for i := 0 to n
      invariant forall j | 0 <= j < i :: Masked(ip[..], h)[j] == Masked(net[..], h)[j]
    {
      MaskedAt(ip[..], h, i);
      MaskedAt(net[..], h, i);
      if MaskByte(net[i], HostBits(n, i, h)) != MaskByte(ip[i], HostBits(n, i, h)) {
        return false;
      }
    }
    return true;
  }

  // ---- The enumeration ----

  /** The number of the first address of the subnet that `v` lies in. */
  function Base(v: nat, h: nat): nat {
    RoundDown(v, Pow2(h))
  }

  /** Two addresses mask to the same network exactly when their numbers round down alike. */
  lemma SameNetwork(a: seq<byte>, b: seq<byte>, h: nat)
    requires |a| == |b| && h <= 8 * |a|
    ensures Masked(a, h) == Masked(b, h) <==> Base(BigEndianValue(a), h) == Base(BigEndianValue(b), h)
  {
    MaskedValue(a, h);
    MaskedValue(b, h);
    if Base(BigEndianValue(a), h) == Base(BigEndianValue(b), h) {
      ValueInjective(Masked(a, h), Masked(b, h));
    }
  }

  lemma MaskedBase(ip: seq<byte>, h: nat)
    requires h <= 8 * |ip|
    ensures BigEndianValue(Masked(ip, h)) == Base(BigEndianValue(ip), h)
  {
    MaskedValue(ip, h);
  }

  lemma BelowSpace(v: nat, h: nat, n: nat)
    requires v < Pow2(8 * n)
    ensures Base(v, h) < Pow2(8 * n)
  {
    SameBase(v, h, 0);
  }

  lemma SameBase(v: nat, h: nat, i: nat)
    ensures i < Pow2(h) ==> Base(Base(v, h) + i, h) == Base(v, h)
    ensures Base(Base(v, h) + Pow2(h), h) == Base(v, h) + Pow2(h)
    ensures Base(v, h) <= v < Base(v, h) + Pow2(h)
  {
    hide Pow2, RoundDown;
    RoundAgain(v, Pow2(h), i);
  }

  lemma RoundAgain(v: nat, size: nat, i: nat)
    requires size > 0
    ensures i < size ==> RoundDown(RoundDown(v, size) + i, size) == RoundDown(v, size)
    ensures RoundDown(RoundDown(v, size) + size, size) == RoundDown(v, size) + size
    ensures RoundDown(v, size) <= v < RoundDown(v, size) + size
  {
    var q, r := Quotient(v, size);
    hide RoundDown;
    RoundDownTo(v, size, q, r);
    if i < size {
      RoundDownTo(q * size + i, size, q, i);
    }
    assert (q + 1) * size == q * size + size;
    RoundDownTo(q * size + size, size, q + 1, 0);
  }

  lemma Quotient(v: nat, size: nat) returns (q: nat, r: nat)
    requires size > 0
    ensures v == q * size + r && r < size && RoundDown(v, size) == q * size
  {
    q, r := v / size, v % size;
  }

  /** The subnet ends at or before the end of the address space. */
  lemma BaseFits(v: nat, h: nat, bits: nat)
    requires v < Pow2(bits) && h <= bits
    ensures Base(v, h) + Pow2(h) <= Pow2(bits)
  {
    hide Pow2, RoundDown;
    Pow2Add(h, bits - h);
    var q, r := Quotient(v, Pow2(h));
    Below(q, Pow2(h), Pow2(bits - h));
  }

  lemma Below(q: nat, size: nat, rest: nat)
    requires q * size < size * rest
    ensures q * size + size <= size * rest
  {
    assert q >= rest ==> q * size >= rest * size;
    assert q < rest ==> (q + 1) * size <= rest * size;
  }

  /** The addresses numbered from `first`, one after the other. */
  ghost predicate Lists(ips: seq<seq<byte>>, n: nat, first: nat) {
    forall i | 0 <= i < |ips| :: |ips[i]| == n && BigEndianValue(ips[i]) == first + i
  }

  /** Consecutive numbers: strictly increasing, without duplicates, and nothing in between left out. */
  lemma ListsExactly(ips: seq<seq<byte>>, n: nat, first: nat, a: seq<byte>)
    requires Lists(ips, n, first)
    ensures forall i, j | 0 <= i < j < |ips| :: BigEndianValue(ips[i]) < BigEndianValue(ips[j]) && ips[i] != ips[j]
    ensures a in ips <==> |a| == n && first <= BigEndianValue(a) < first + |ips|
  {
    if |a| == n && first <= BigEndianValue(a) < first + |ips| {
      ValueInjective(a, ips[BigEndianValue(a) - first]);
    }
  }

  /** The addresses of the subnet, one increment after the other until the address leaves it. */
  method Enumerate(ip: array<byte>, h: nat) returns (ips: seq<seq<byte>>)
    requires ip.Length >= 2 && h <= 12
    ensures |ips| == Pow2(h) && Lists(ips, ip.Length, Base(BigEndianValue(ip[..]), h))
  {
    hide *;
    ips := [];
    ghost var was, n := ip[..], ip.Length;
    var a := MaskIp(ip, h);
    AtStart(was, h);
    ListsNone(n, Base(BigEndianValue(was), h));
    while true
      invariant fresh(a) && a.Length == n && ip[..] == was
      invariant |ips| <= Pow2(h) && Lists(ips, n, Base(BigEndianValue(was), h))
      invariant AtAddress(was, h, |ips|, a[..])
      decreases Pow2(h) - |ips|
    {
      var inside := Contains(ip, h, a);
      AtNext(was, h, |ips|, a[..]);
      if !inside {
        break;
      }
      ListsSnoc(ips, n, Base(BigEndianValue(was), h), a[..]);
      ips := ips + [a[..]];
      IncIp(a);
    }
  }

  /** subnetIPs, from the parsed address and the number of host bits. */
  method SubnetIps(ip: array<byte>, h: nat) returns (ips: seq<seq<byte>>)
    requires ip.Length == 4 || ip.Length == 16
    requires h <= 8 * ip.Length
    ensures h > 12 ==> ips == []
    ensures h <= 12 ==> |ips| == if h >= 2 then Pow2(h) - 2 else Pow2(h)
    ensures h <= 12 ==> Lists(ips, ip.Length, Base(BigEndianValue(ip[..]), h) + if h >= 2 then 1 else 0)
  {
    if h > 12 {
      return [];
    }
    SmallSizes(h);
    hide Pow2, Base, BigEndianValue;
    ips := Enumerate(ip, h);
    if |ips| > 2 {
      ips := ips[1..|ips| - 1];
    }
  }

  lemma ListsNone(n: nat, first: nat)
    ensures Lists([], n, first)
  {
  }

  lemma ListsSnoc(ips: seq<seq<byte>>, n: nat, first: nat, a: seq<byte>)
    requires Lists(ips, n, first) && |a| == n && BigEndianValue(a) == first + |ips|
    ensures Lists(ips + [a], n, first)
  {
  }

  /** The loop's address is i increments past the first of the subnet. */
  ghost predicate AtAddress(ip: seq<byte>, h: nat, i: nat, a: seq<byte>) {
    |a| == |ip| && BigEndianValue(a) == Wrap(Base(BigEndianValue(ip), h) + i, Pow2(8 * |ip|))
  }

  lemma AtStart(ip: seq<byte>, h: nat)
    requires h <= 8 * |ip|
    ensures AtAddress(ip, h, 0, Masked(ip, h))
  {
    MaskedBase(ip, h);
    BelowSpace(BigEndianValue(ip), h, |ip|);
  }

  lemma AtNext(ip: seq<byte>, h: nat, i: nat, a: seq<byte>)
    requires |ip| >= 2 && h <= 12 && i <= Pow2(h) && AtAddress(ip, h, i, a)
    ensures Masked(a, h) == Masked(ip, h) <==> i < Pow2(h)
    ensures i < Pow2(h) ==> BigEndianValue(a) == Base(BigEndianValue(ip), h) + i && AtAddress(ip, h, i + 1, Next(a))
  {
    hide Pow2, Base, BigEndianValue, Next, Masked;
    SameNetwork(a, ip, h);
    Leaves(BigEndianValue(ip), h, |ip|, i);
    BaseFits(BigEndianValue(ip), h, 8 * |ip|);
    NextWraps(a);
  }

  /** The loop goes on for exactly the addresses of the subnet, also where the last increment wraps. */
  lemma Leaves(v: nat, h: nat, n: nat, i: nat)
    requires h <= 12 && n >= 2 && v < Pow2(8 * n) && i <= Pow2(h)
    ensures Base(Wrap(Base(v, h) + i, Pow2(8 * n)), h) == Base(v, h) <==> i < Pow2(h)
  {
    Doubled(h, n);
    RoundDownZero(Pow2(h));
    hide Pow2, RoundDown;
    BaseFits(v, h, 8 * n);
    SameBase(v, h, i);
  }

  lemma Doubled(h: nat, n: nat)
    requires h <= 12 && n >= 2
    ensures Pow2(8 * n) > Pow2(h)
  {
    Pow2Add(h, 8 * n - h);
    assert Pow2(8 * n - h) == 2 * Pow2(8 * n - h - 1);
    Doubles(Pow2(h), Pow2(8 * n - h));
  }

  lemma Doubles(size: nat, rest: nat)
    requires size >= 1 && rest >= 2
    ensures size * rest > size
  {
  }

  lemma SmallSizes(h: nat)
    ensures h >= 2 <==> Pow2(h) > 2
  {
    if h >= 2 {
      assert Pow2(h) == 4 * Pow2(h - 2);
    }
  }
}
