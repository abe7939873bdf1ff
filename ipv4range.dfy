/** The CIDR predicate of the `ipv4range` test: a dotted quad is packed
    big-endian into 32 bits and compared with a network under a prefix mask. */
module Ipv4Range {
  import opened Values

  type Octet = x: int | 0 <= x < 256

  /** The four octets of a dotted-quad address, most significant first. */
  datatype Quad = Quad(a: Octet, b: Octet, c: Octet, d: Octet)

  /** `int(''.join(['%02x' % o for o in octets]), 16)`: two hex digits per
      octet, so the octets are the base-256 digits of the result. */
  function Pack(q: Quad): (x: nat)
    ensures x < 0x1_0000_0000
  {
    ((q.a * 256 + q.b) * 256 + q.c) * 256 + q.d
  }

  /** The octets of an address, most significant first. */
  function Octets(q: Quad): seq<Octet>
  {
    [q.a, q.b, q.c, q.d]
  }

  /** The number whose base-256 digits are `s`, most significant first. */
  function Value256(s: seq<Octet>): nat
  {
    if s == [] then 0 else Value256(s[..|s| - 1]) * 256 + s[|s| - 1]
  }

  lemma PackValue(q: Quad)
    ensures Pack(q) == Value256(Octets(q))
  {
    var s := Octets(q);
    assert s[..3][..2][..1][..0] == [];
    assert s[..3][..2][..1] == [q.a];
    assert s[..3][..2] == [q.a, q.b];
    assert s[..3] == [q.a, q.b, q.c];
    assert Value256([q.a]) == q.a;
    assert Value256([q.a, q.b]) == q.a * 256 + q.b;
    assert Value256([q.a, q.b, q.c]) == (q.a * 256 + q.b) * 256 + q.c;
  }

  /** A base-256 digit and what stands above it can be told apart. */
  lemma Base256(hi: nat, lo: Octet, hi': nat, lo': Octet)
    ensures hi * 256 + lo == hi' * 256 + lo' <==> hi == hi' && lo == lo'
    ensures (hi * 256 + lo) / 256 == hi
  {
  }

  /** Digit strings of the same length have the same value only when equal. */
  lemma {:induction false} Value256Injective(s: seq<Octet>, t: seq<Octet>)
    requires |s| == |t|
    ensures Value256(s) == Value256(t) <==> s == t
  {
    if s != [] {
      var n := |s| - 1;
      Base256(Value256(s[..n]), s[n], Value256(t[..n]), t[n]);
      Value256Injective(s[..n], t[..n]);
      assert s == s[..n] + [s[n]] && t == t[..n] + [t[n]];
    }
  }

  /** Two addresses pack to the same value only when they are the same address. */
  lemma PackInjective(p: Quad, q: Quad)
    ensures Pack(p) == Pack(q) <==> p == q
  {
    PackValue(p);
    PackValue(q);
    Value256Injective(Octets(p), Octets(q));
  }

  // ---------------------------------------------------------------- Python's &, << and >>

  function Pow2(n: nat): (r: nat)
    ensures r > 0
  {
    if n == 0 then 1 else 2 * Pow2(n - 1)
  }

  /** `2^n - 1`: `n` one-bits. */
  function Ones(n: nat): nat
  {
    if n == 0 then 0 else 2 * Ones(n - 1) + 1
  }

  /** `v << k` */
  function Shl(v: nat, k: nat): nat
  {
    if k == 0 then v else 2 * Shl(v, k - 1)
  }

  /** `x >> k` */
  function Shr(x: nat, k: nat): nat
  {
    if k == 0 then x else Shr(x / 2, k - 1)
  }

  /** `x & (2^m - 1)`: the low `m` bits of `x`. */
  function Low(x: nat, m: nat): nat
  {
    if m == 0 then 0 else 2 * Low(x / 2, m - 1) + x % 2
  }

  /** `x & y` on non-negative Python ints, bit by bit from the least significant. */
  function BitAnd(x: nat, y: nat): nat
  {
    if x == 0 || y == 0 then 0
    else 2 * BitAnd(x / 2, y / 2) + (if x % 2 == 1 && y % 2 == 1 then 1 else 0)
  }

  /** `(0xffffffff << (32 - bits)) & 0xffffffff` */
  function Mask(bits: int): nat
    requires 0 <= bits <= 32
  {
    BitAnd(Shl(0xffff_ffff, 32 - bits), 0xffff_ffff)
  }

  lemma {:induction false} Pow2Plus8(n: nat)
    ensures Pow2(n + 8) == 256 * Pow2(n)
  {
    assert Pow2(n + 8) == 2 * Pow2(n + 7);
    assert Pow2(n + 7) == 2 * Pow2(n + 6);
    assert Pow2(n + 6) == 2 * Pow2(n + 5);
    assert Pow2(n + 5) == 2 * Pow2(n + 4);
    assert Pow2(n + 4) == 2 * Pow2(n + 3);
    assert Pow2(n + 3) == 2 * Pow2(n + 2);
    assert Pow2(n + 2) == 2 * Pow2(n + 1);
  }

  lemma Pow2Of32()
    ensures Pow2(32) == 0x1_0000_0000
  {
    Pow2Plus8(0);
    Pow2Plus8(8);
    Pow2Plus8(16);
    Pow2Plus8(24);
  }

  lemma {:induction false} OnesValue(n: nat)
    ensures Ones(n) == Pow2(n) - 1
  {
    if n > 0 {
      OnesValue(n - 1);
    }
  }

  lemma {:induction false} ShlZero(k: nat)
    ensures Shl(0, k) == 0
  {
    if k > 0 {
      ShlZero(k - 1);
    }
  }

  lemma {:induction false} ShrZero(k: nat)
    ensures Shr(0, k) == 0
  {
    if k > 0 {
      ShrZero(k - 1);
    }
  }

  lemma {:induction false} LowZero(m: nat)
    ensures Low(0, m) == 0
  {
    if m > 0 {
      LowZero(m - 1);
    }
  }

  /** `x & (2^m - 1)` is the low `m` bits of `x`. */
  lemma {:induction false} BitAndOnes(x: nat, m: nat)
    ensures BitAnd(x, Ones(m)) == Low(x, m)
  {
    if m == 0 {
    } else if x == 0 {
      LowZero(m);
    } else {
      BitAndOnes(x / 2, m - 1);
    }
  }

  /** A number already below `2^m` is its own low `m` bits. */
  lemma {:induction false} LowSmall(x: nat, m: nat)
    requires x < Pow2(m)
    ensures Low(x, m) == x
  {
    if m > 0 {
      LowSmall(x / 2, m - 1);
    }
  }

  /** Of `n` one-bits, the low `m` are `m` one-bits. */
  lemma {:induction false} LowOnes(a: nat, m: nat)
    requires m <= a
    ensures Low(Ones(a), m) == Ones(m)
  {
    if m > 0 {
      LowOnes(a - 1, m - 1);
    }
  }

  /** Taking the low `n` bits of a shifted value shifts the low `n - k` bits. */
  lemma {:induction false} LowShl(v: nat, k: nat, n: nat)
    requires k <= n
    ensures Low(Shl(v, k), n) == Shl(Low(v, n - k), k)
  {
    if k > 0 {
      LowShl(v, k - 1, n - 1);
    }
  }

  /** `x & (ones(b) << k)` is `((x >> k) & ones(b)) << k`. */
  lemma {:induction false} BitAndShiftedOnes(x: nat, b: nat, k: nat)
    ensures BitAnd(x, Shl(Ones(b), k)) == Shl(Low(Shr(x, k), b), k)
  {
    if k == 0 {
      BitAndOnes(x, b);
    } else if x == 0 {
      ShrZero(k);
      LowZero(b);
      ShlZero(k);
    } else if b == 0 {
      ShlZero(k);
      ShlZero(k - 1);
    } else {
      BitAndShiftedOnes(x / 2, b, k - 1);
    }
  }

  lemma {:induction false} ShlInjective(u: nat, v: nat, k: nat)
    ensures Shl(u, k) == Shl(v, k) <==> u == v
  {
    if k > 0 {
      ShlInjective(u, v, k - 1);
    }
  }

  lemma {:induction false} ShrBound(x: nat, n: nat, k: nat)
    requires k <= n && x < Pow2(n)
    ensures Shr(x, k) < Pow2(n - k)
  {
    if k > 0 {
      ShrBound(x / 2, n - 1, k - 1);
    }
  }

  lemma {:induction false} ShrAdd(x: nat, j: nat, k: nat)
    ensures Shr(Shr(x, j), k) == Shr(x, j + k)
  {
    if j > 0 {
      ShrAdd(x / 2, j - 1, k);
    }
  }

  lemma Shr8(x: nat)
    ensures Shr(x, 8) == x / 256
  {
    var x1 := x / 2;
    var x2 := x1 / 2;
    var x3 := x2 / 2;
    var x4 := x3 / 2;
    var x5 := x4 / 2;
    var x6 := x5 / 2;
    var x7 := x6 / 2;
    assert Shr(x, 8) == Shr(x1, 7) == Shr(x2, 6) == Shr(x3, 5) == Shr(x4, 4);
    assert Shr(x4, 4) == Shr(x5, 3) == Shr(x6, 2) == Shr(x7, 1) == x7 / 2;
  }

  lemma Shr24(x: nat)
    ensures Shr(x, 24) == x / 0x100_0000
  {
    Shr8(x);
    Shr8(x / 256);
    Shr8(x / 256 / 256);
    ShrAdd(x, 8, 8);
    ShrAdd(x, 16, 8);
  }

  /** The mask is `bits` one-bits followed by `32 - bits` zero-bits. */
  lemma MaskValue(bits: int)
    requires 0 <= bits <= 32
    ensures Mask(bits) == Shl(Ones(bits), 32 - bits)
  {
    OnesValue(32);
    Pow2Of32();
    ShiftedFull(0xffff_ffff, bits);
  }

  lemma ShiftedFull(full: nat, bits: int)
    requires 0 <= bits <= 32 && full == Ones(32)
    ensures BitAnd(Shl(full, 32 - bits), full) == Shl(Ones(bits), 32 - bits)
  {
    BitAndOnes(Shl(full, 32 - bits), 32);
    LowShl(full, 32 - bits, 32);
    LowOnes(32, bits);
  }

  /** `(ip & mask) == (net & mask)` */
  predicate InRange(ip: Quad, net: Quad, bits: int)
    requires 0 <= bits <= 32
  {
    BitAnd(Pack(ip), Mask(bits)) == BitAnd(Pack(net), Mask(bits))
  }

  /** Masking keeps the top `bits` of a 32-bit address: it is in range exactly
      when both addresses agree after dropping their low `32 - bits` bits. */
  lemma InRangePrefix(ip: Quad, net: Quad, bits: int)
    requires 0 <= bits <= 32
    ensures InRange(ip, net, bits) <==> Shr(Pack(ip), 32 - bits) == Shr(Pack(net), 32 - bits)
  {
    var k := 32 - bits;
    MaskValue(bits);
    Pow2Of32();
    BitAndShiftedOnes(Pack(ip), bits, k);
    BitAndShiftedOnes(Pack(net), bits, k);
    ShrBound(Pack(ip), 32, k);
    ShrBound(Pack(net), 32, k);
    LowSmall(Shr(Pack(ip), k), bits);
    LowSmall(Shr(Pack(net), k), bits);
    ShlInjective(Shr(Pack(ip), k), Shr(Pack(net), k), k);
  }

  /** A /0 prefix matches every address. */
  lemma PrefixZeroMatchesAll(ip: Quad, net: Quad)
    ensures InRange(ip, net, 0)
  {
    MaskValue(0);
    ShlZero(32);
    assert Mask(0) == 0;
  }

  /** A /32 prefix matches only the identical address. */
  lemma Prefix32OnlyIdentical(ip: Quad, net: Quad)
    ensures InRange(ip, net, 32) <==> ip == net
  {
    InRangePrefix(ip, net, 32);
    PackInjective(ip, net);
  }

  /** Shifting right by whole octets drops the trailing digits. */
  lemma {:induction false} ShrOctets(s: seq<Octet>, k: nat)
    requires k <= |s|
    ensures Shr(Value256(s), 8 * k) == Value256(s[..|s| - k])
  {
    if k > 0 {
      var n := |s| - 1;
      var x := Value256(s);
      ShrAdd(x, 8, 8 * (k - 1));
      assert Shr(x, 8 * k) == Shr(Shr(x, 8), 8 * (k - 1));
      Shr8(x);
      Base256(Value256(s[..n]), s[n], 0, 0);
      assert Shr(x, 8) == Value256(s[..n]);
      ShrOctets(s[..n], k - 1);
      assert s[..n][..n - (k - 1)] == s[..|s| - k];
    } else {
      assert s[..|s|] == s;
    }
  }

  /** On a whole number of octets the verdict is: the leading octets agree.
      So /24 compares the first three octets and /8 the first one. */
  lemma PrefixOctets(ip: Quad, net: Quad, n: nat)
    requires n <= 4
    ensures InRange(ip, net, 8 * n) <==> Octets(ip)[..n] == Octets(net)[..n]
  {
    InRangePrefix(ip, net, 8 * n);
    PackValue(ip);
    PackValue(net);
    ShrOctets(Octets(ip), 4 - n);
    ShrOctets(Octets(net), 4 - n);
    Value256Injective(Octets(ip)[..n], Octets(net)[..n]);
  }

  /** The host part of the network string plays no role: under /24 the last
      octet of the network is ignored. */
  lemma HostBitsIgnored(ip: Quad, x: Octet, y: Octet, z: Octet, host: Octet)
    ensures InRange(ip, Quad(x, y, z, host), 8 * 3) == InRange(ip, Quad(x, y, z, 0), 8 * 3)
  {
    PrefixOctets(ip, Quad(x, y, z, host), 3);
    PrefixOctets(ip, Quad(x, y, z, 0), 3);
  }

  // ---------------------------------------------------------------- parsing

  /** One octet: `int(x)`, which must lie in 0..255. */
  function ParseOctet(s: string): (r: Option<Octet>)
    ensures r.Some? ==> ParseInt(s) == Some(r.value)
  {
    match ParseInt(s)
    case Some(n) => if 0 <= n < 256 then Some(n) else None
    case None => None
  }

  /** `ip.split('.')`, which must give exactly four octets. */
  function ParseQuad(s: string): Option<Quad>
  {
    var parts := Split(s, '.');
    if |parts| != 4 then None
    else
      match (ParseOctet(parts[0]), ParseOctet(parts[1]), ParseOctet(parts[2]), ParseOctet(parts[3]))
      case (Some(a), Some(b), Some(c), Some(d)) => Some(Quad(a, b, c, d))
      case _ => None
  }

  /** `ip_in_range(ip, net)` on the strings the test sees: `net` must be a string
      `addr/bits`.  A network given as a non-string fails on `.split`. */
  function IpInRange(ip: string, net: Value): (r: Result<bool>)
    ensures r.Ok? ==> net.Str? && ParseQuad(ip).Some?
  {
    if ParseQuad(ip).None? then Err(ValueErr)
    else if !net.Str? then Err(AttributeErr)
    else
      var parts := Split(net.s, '/');
      if |parts| != 2 then Err(ValueErr)
      else
        match (ParseQuad(parts[0]), ParseInt(parts[1]))
        case (Some(n), Some(bits)) =>
          if 0 <= bits <= 32 then Ok(InRange(ParseQuad(ip).value, n, bits)) else Err(ValueErr)
        case _ => Err(ValueErr)
  }

  /** The loop of the test's `_evaluate`: true at the first target that contains
      `ip`, false when none does, the first error otherwise. */
  function AnyInRange(ip: string, targets: seq<Value>): Result<bool>
  {
    if targets == [] then Ok(false)
    else
      match IpInRange(ip, targets[0])
      case Err(e) => Err(e)
      case Ok(true) => Ok(true)
      case Ok(false) => AnyInRange(ip, targets[1..])
  }

  /** When every target is well formed, the test holds exactly when the
      address lies in at least one of them. */
  lemma {:induction false} AnyInRangeExists(ip: string, targets: seq<Value>)
    requires forall i :: 0 <= i < |targets| ==> IpInRange(ip, targets[i]).Ok?
    ensures AnyInRange(ip, targets).Ok?
    ensures AnyInRange(ip, targets).value <==>
            exists i :: 0 <= i < |targets| && IpInRange(ip, targets[i]) == Ok(true)
  {
    if targets != [] {
      AnyInRangeExists(ip, targets[1..]);
      if IpInRange(ip, targets[0]) == Ok(false) {
        if exists i :: 0 <= i < |targets| && IpInRange(ip, targets[i]) == Ok(true) {
          var i :| 0 <= i < |targets| && IpInRange(ip, targets[i]) == Ok(true);
          assert targets[1..][i - 1] == targets[i];
        }
      }
    }
  }

  // ---------------------------------------------------------------- round trip

  /** The dotted-quad text of an address, as `str` prints its octets. */
  function Dotted(q: Quad): string
  {
    Join([IntToString(q.a), IntToString(q.b), IntToString(q.c), IntToString(q.d)], '.')
  }

  /** A decimal numeral holds no separator. */
  lemma NumeralHasNo(s: string, sep: char)
    requires AllDigits(s) && !IsDigit(sep)
    ensures sep !in s
  {
  }

  lemma OctetRoundTrip(n: Octet)
    ensures ParseOctet(IntToString(n)) == Some(n)
  {
    IntToStringRoundTrip(n);
  }

  /** Parsing the dotted text of an address gives the address back. */
  lemma ParseDotted(q: Quad)
    ensures ParseQuad(Dotted(q)) == Some(q)
  {
    var parts := [IntToString(q.a), IntToString(q.b), IntToString(q.c), IntToString(q.d)];
    forall i | 0 <= i < 4
      ensures '.' !in parts[i]
    {
      NumeralHasNo(parts[i], '.');
    }
    SplitJoin(parts, '.');
    OctetRoundTrip(q.a);
    OctetRoundTrip(q.b);
    OctetRoundTrip(q.c);
    OctetRoundTrip(q.d);
  }

  /** On well-formed text `ip_in_range` is exactly the CIDR predicate. */
  lemma IpInRangeWellFormed(ip: Quad, net: Quad, bits: int)
    requires 0 <= bits <= 32
    ensures IpInRange(Dotted(ip), Str(Dotted(net) + "/" + IntToString(bits))) == Ok(InRange(ip, net, bits))
  {
    var d, b := Dotted(net), IntToString(bits);
    ParseDotted(ip);
    ParseDotted(net);
    IntToStringRoundTrip(bits);
    NumeralHasNo(b, '/');
    DottedHasNo(net, '/');
    SplitJoin([d, b], '/');
    assert Join([d, b], '/') == d + "/" + b;
    var parts := Split(d + "/" + b, '/');
    assert parts == [d, b];
    assert ParseQuad(parts[0]) == Some(net) && ParseInt(parts[1]) == Some(bits);
  }

  /** The dotted text holds no character other than digits and dots. */
  lemma DottedHasNo(q: Quad, c: char)
    requires !IsDigit(c) && c != '.'
    ensures c !in Dotted(q)
  {
    var parts := [IntToString(q.a), IntToString(q.b), IntToString(q.c), IntToString(q.d)];
    forall i | 0 <= i < 4
      ensures c !in parts[i]
    {
      NumeralHasNo(parts[i], c);
    }
    JoinHasNo(parts, '.', c);
  }

  /** So `192.168.0.5` lies in `192.168.0.0/24` and `192.168.1.5` does not:
      on a /8, /16, /24 or /32 network the test compares leading octets. */
  lemma IpInRangeOctets(ip: Quad, net: Quad, n: nat)
    requires n <= 4
    ensures IpInRange(Dotted(ip), Str(Dotted(net) + "/" + IntToString(8 * n))) ==
            Ok(Octets(ip)[..n] == Octets(net)[..n])
  {
    IpInRangeWellFormed(ip, net, 8 * n);
    PrefixOctets(ip, net, n);
  }
}
