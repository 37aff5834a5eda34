/**
 * IP addresses and address blocks as Ruby's IPAddr sees them: an address family, the
 * address as a number and a prefix length. `IPAddr.new` masks the address to its prefix
 * on construction and `include?` compares the other address under this block's mask.
 * Parsing address text is not modelled here; it is an input to the decision (see Policy.Env).
 */
module Net {

  datatype Family = V4 | V6

  /** Number of bits in an address of the family. */
  function Width(f: Family): nat {
    match f
    case V4 => 32
    case V6 => 128
  }

  function Pow2(n: nat): (r: nat)
    ensures r >= 1
  {
    if n == 0 then 1 else 2 * Pow2(n - 1)
  }

  lemma {:induction false} Pow2Add(m: nat, n: nat)
    ensures Pow2(m + n) == Pow2(m) * Pow2(n)
  {
    if m > 0 {
      Pow2Add(m - 1, n);
    }
  }

  /** An IPv4 address has 2^32 values. */
  lemma Pow2Of32()
    ensures Pow2(32) == 4294967296
  {
    assert Pow2(8) == 256;
    Pow2Add(8, 8);
    Pow2Add(16, 16);
  }

  /** An address with a prefix length: "10.0.0.0/8" or, for a single host, "10.1.2.3" (/32). */
  datatype Addr = Addr(family: Family, bits: nat, prefix: nat)

  /** What IPAddr.new can produce: the number fits the family and the prefix is not longer than it. */
  type IpAddr = a: Addr | a.bits < Pow2(Width(a.family)) && a.prefix <= Width(a.family)
    witness Addr(V4, 0, 0)

  /** Number of addresses covered by the block. */
  function BlockSize(a: IpAddr): (r: nat)
    ensures r >= 1
  {
    Pow2(Width(a.family) - a.prefix)
  }

  /** `x & mask` for a mask that clears the low bits that count `b` values: round down to a multiple of `b`. */
  function Mask(x: nat, b: nat): nat
    requires b > 0
  {
    x / b * b
  }

  /** The address IPAddr keeps after construction: the given address masked to its prefix. */
  function Network(a: IpAddr): nat {
    Mask(a.bits, BlockSize(a))
  }

  /** IPAddr#include?: same family, and the other address masked with this block's mask is this block's address. */
  predicate Includes(net: IpAddr, other: IpAddr) {
    net.family == other.family && Mask(Network(other), BlockSize(net)) == Network(net)
  }

  /** Masking with block size `b` hits the multiple `q * b` exactly for the `b` numbers from `q * b` on. */
  lemma MaskHits(x: nat, b: nat, q: nat)
    requires b > 0
    ensures Mask(x, b) == q * b <==> q * b <= x < q * b + b
  {
    var d, r := x / b, x % b;
    assert x == d * b + r && 0 <= r < b;
    if Mask(x, b) == q * b {
      assert (d - q) * b == 0;
    }
    if q * b <= x < q * b + b {
      var k: int := d - q;
      assert -(b as int) < k * b < b;
      SmallMultiple(k, b);
    }
  }

  /** The only multiple of `b` strictly between `-b` and `b` is zero. */
  lemma SmallMultiple(k: int, b: int)
    requires b > 0 && -b < k * b < b
    ensures k == 0
  {
  }

  /**
   * A block includes another address exactly when that address (masked to its own prefix)
   * lies within the block's range of BlockSize(net) addresses starting at Network(net).
   */
  lemma IncludesIsRange(net: IpAddr, other: IpAddr)
    ensures Includes(net, other) <==>
      net.family == other.family && Network(net) <= Network(other) < Network(net) + BlockSize(net)
  {
    var b, q, x := BlockSize(net), net.bits / BlockSize(net), Network(other);
    assert Network(net) == q * b;
    MaskHits(x, b, q);
    assert Includes(net, other) <==> net.family == other.family && Mask(x, b) == q * b;
  }

  /** A single host address (full-length prefix) is its own network. */
  lemma HostIsOwnNetwork(a: IpAddr)
    requires a.prefix == Width(a.family)
    ensures Network(a) == a.bits
  {
  }

  /** 10.0.0.0/24 includes 10.0.0.5 and does not include 10.0.2.5; 10.0.1.0/24 does not include 10.0.2.5. */
  lemma BlockExample()
    ensures Pow2(32) == 4294967296
    ensures Includes(Addr(V4, 167772160, 24), Addr(V4, 167772165, 32))
    ensures !Includes(Addr(V4, 167772160, 24), Addr(V4, 167772677, 32))
    ensures !Includes(Addr(V4, 167772416, 24), Addr(V4, 167772677, 32))
  {
    Pow2Of32();
    var first: IpAddr := Addr(V4, 167772160, 24);
    var second: IpAddr := Addr(V4, 167772416, 24);
    var inside: IpAddr := Addr(V4, 167772165, 32);
    var outside: IpAddr := Addr(V4, 167772677, 32);
    assert BlockSize(first) == 256 && BlockSize(second) == 256;
    assert Network(first) == 167772160 && Network(second) == 167772416;
    HostIsOwnNetwork(inside);
    HostIsOwnNetwork(outside);
    IncludesIsRange(first, inside);
    IncludesIsRange(first, outside);
    IncludesIsRange(second, outside);
  }
}
