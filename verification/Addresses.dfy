/** IP addresses as numbers, and the prefix arithmetic of section 3.1 of RFC 4632. */
module Addresses {

  function Pow2(n: nat): (p: nat)
    ensures p > 0
  {
    if n == 0 then 1 else 2 * Pow2(n - 1)
  }

  /** The leading `prefix` bits of a `width`-bit number. */
  function Leading(bits: nat, width: nat, prefix: nat): int
    requires prefix <= width
  {
    bits / Pow2(width - prefix)
  }

  datatype IP = V4(bits: nat) | V6(bits: nat)

  function Width(ip: IP): nat {
    if ip.V4? then 32 else 128
  }

  datatype Network = Network(base: IP, prefix: nat)

  predicate ValidNetwork(n: Network) {
    n.prefix <= Width(n.base)
  }

  /** The address has the network's leading bits. */
  predicate Contains(n: Network, ip: IP)
    requires ValidNetwork(n)
  {
    n.base.V4? == ip.V4? && Leading(ip.bits, Width(ip), n.prefix) == Leading(n.base.bits, Width(ip), n.prefix)
  }

  lemma QuotientRange(x: nat, size: nat, q: nat)
    requires size > 0
    ensures x / size == q <==> q * size <= x < q * size + size
  {
    var r := x % size;
    assert x == (x / size) * size + r;
    if x / size < q {
      assert (x / size + 1) * size <= q * size;
    } else if x / size > q {
      assert (q + 1) * size <= (x / size) * size;
    }
  }

  /** The number of addresses in a network. */
  function Size(n: Network): (size: nat)
    requires ValidNetwork(n)
    ensures size > 0
  {
    Pow2(Width(n.base) - n.prefix)
  }

  lemma QuotientIsNat(x: nat, size: nat)
    requires size > 0
    ensures x / size >= 0
  {
  }

  function First(n: Network): nat
    requires ValidNetwork(n)
  {
    QuotientIsNat(n.base.bits, Size(n));
    n.base.bits / Size(n) * Size(n)
  }

  lemma SameQuotient(x: nat, y: nat, size: nat)
    requires size > 0
    ensures x / size == y / size <==> y / size * size <= x < y / size * size + size
  {
    QuotientIsNat(y, size);
    QuotientRange(x, size, y / size);
  }

  lemma LeadingIsQuotient(n: Network, bits: nat)
    requires ValidNetwork(n)
    ensures Leading(bits, Width(n.base), n.prefix) == bits / Size(n)
  {
  }

  /** A network is the range of addresses from its first on. */
  lemma NetworkIsRange(n: Network, ip: IP)
    requires ValidNetwork(n) && n.base.V4? == ip.V4?
    ensures Contains(n, ip) <==> First(n) <= ip.bits < First(n) + Size(n)
  {
    LeadingIsQuotient(n, ip.bits);
    LeadingIsQuotient(n, n.base.bits);
    SameQuotient(ip.bits, n.base.bits, Size(n));
  }

  lemma DoubledBlocks(q: int, size: nat)
    ensures q * (2 * size) == (2 * q) * size && q * (2 * size) + size == (2 * q + 1) * size
  {
  }

  lemma MultipleOf(m: int, size: nat)
    requires size > 0 && m * size >= 0
    ensures m * size / size * size == m * size
  {
    QuotientRange(m * size, size, m);
  }

  lemma EvenStart(x: nat, size: nat)
    requires size > 0
    ensures
      var first := x / (2 * size) * (2 * size);
      first >= 0 && first / size * size == first && (first + size) / size * size == first + size
  {
    QuotientIsNat(x, 2 * size);
    Halved(x / (2 * size), size);
  }

  lemma Halved(q: nat, size: nat)
    requires size > 0
    ensures
      var first := q * (2 * size);
      first >= 0 && first / size * size == first && (first + size) / size * size == first + size
  {
    DoubledBlocks(q, size);
    MultipleOf(2 * q, size);
    MultipleOf(2 * q + 1, size);
  }

  /** One more bit of prefix splits a network into two halves, and with all its bits fixed
      it is a single address. */
  lemma NetworkSplits(n: Network, ip: IP)
    requires ValidNetwork(n) && n.base.V4? == ip.V4?
    ensures n.prefix == Width(n.base) ==> (Contains(n, ip) <==> ip.bits == n.base.bits)
    ensures n.prefix < Width(n.base) ==>
      var low := Network(n.base.(bits := First(n)), n.prefix + 1);
      var high := Network(n.base.(bits := First(n) + Size(low)), n.prefix + 1);
      && ValidNetwork(low) && ValidNetwork(high)
      && (Contains(n, ip) <==> Contains(low, ip) || Contains(high, ip)) && !(Contains(low, ip) && Contains(high, ip))
  {
    NetworkIsRange(n, ip);
    if n.prefix < Width(n.base) {
      var low := Network(n.base.(bits := First(n)), n.prefix + 1);
      var high := Network(n.base.(bits := First(n) + Size(low)), n.prefix + 1);
      EvenStart(n.base.bits, Size(low));
      NetworkIsRange(low, ip);
      NetworkIsRange(high, ip);
    }
  }
}
