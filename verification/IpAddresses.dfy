/** Addresses, rule targets and the prefix arithmetic behind longest-prefix matching
    (section 3.1 of RFC 4632, section 2.3 of RFC 4291). */
module IpAddresses {

  datatype Family = V4 | V6

  function Width(f: Family): nat {
    match f
    case V4 => 32
    case V6 => 128
  }

  /** The number without its `n` lowest bits. */
  function Drop(x: nat, n: nat): nat
    decreases n
  {
    if n == 0 then x else Drop(x / 2, n - 1)
  }

  predicate LowBitsZero(x: nat, n: nat)
    decreases n
  {
    n == 0 || (x % 2 == 0 && LowBitsZero(x / 2, n - 1))
  }

  /** The 96 high bits of the IPv4-mapped IPv6 addresses ::ffff:0:0/96. */
  const MAPPED: nat := 0xFFFF

  /** A parsed address. */
  datatype Address = Address(family: Family, bits: nat) {
    /** Every IPv4-mapped IPv6 address is parsed as the IPv4 address in it. */
    predicate Valid() {
      Drop(bits, Width(family)) == 0 && (family == V6 ==> Drop(bits, 32) != MAPPED)
    }

    /** The network part under a prefix of this length. */
    function Network(length: nat): nat
      requires length <= Width(family)
    {
      Drop(bits, Width(family) - length)
    }
  }

  /** What the text of a rule parses to: one address, a prefix block, or nothing. */
  datatype Target =
    | Exact(address: Address)
    | Cidr(base: Address, length: nat)
    | Malformed
  {
    /** What every successful parse yields. */
    predicate Parsed() {
      Cidr? ==> length <= Width(base.family)
    }

    /** The targets `normalizeBlockTarget` produces: blocks have zero host bits, and those of IPv4-mapped
        addresses have become IPv4 blocks. */
    predicate Normalized() {
      match this
      case Exact(a) => a.Valid()
      case Cidr(base, length) =>
        base.Valid() && length <= Width(base.family) && LowBitsZero(base.bits, Width(base.family) - length)
      case Malformed => false
    }

    predicate FullLength() {
      Cidr? && length == Width(base.family)
    }
  }

  /** `ipMatchesBlockedTarget`: equality for an address, equal network parts for a block. */
  predicate Matches(client: Address, target: Target)
    requires target.Parsed()
  {
    match target
    case Exact(a) => client == a
    case Cidr(base, length) => client.family == base.family && client.Network(length) == base.Network(length)
    case Malformed => false
  }

  /** `ruleSpecificity` */
  function Specificity(target: Target): int {
    match target
    case Exact(a) => Width(a.family)
    case Cidr(_, length) => length
    case Malformed => -1
  }

  /** Every address of `t` is one of `u`. */
  ghost predicate Within(t: Target, u: Target)
    requires t.Parsed() && u.Parsed()
  {
    forall x: Address :: x.Valid() && Matches(x, t) ==> Matches(x, u)
  }

  // ------------------------------------------------------------ arithmetic

  lemma {:induction false} DropMore(x: nat, m: nat, n: nat)
    ensures Drop(x, m + n) == Drop(Drop(x, m), n)
    decreases m
  {
    if m > 0 {
      DropMore(x / 2, m - 1, n);
    }
  }

  /** The smallest number whose part above the `n` lowest bits is `k`. */
  function Raise(k: nat, n: nat): nat {
    if n == 0 then k else 2 * Raise(k, n - 1)
  }

  lemma {:induction false} DropRaise(k: nat, n: nat)
    ensures Drop(Raise(k, n), n) == k
  {
    if n > 0 {
      DropRaise(k, n - 1);
    }
  }

  /** Equal network parts stay equal when the prefix gets shorter. */
  lemma SharedPrefix(x: Address, y: Address, short: nat, long: nat)
    requires x.family == y.family && short <= long <= Width(x.family)
    requires x.Network(long) == y.Network(long)
    ensures x.Network(short) == y.Network(short)
  {
    DropMore(x.bits, Width(x.family) - long, long - short);
    DropMore(y.bits, Width(x.family) - long, long - short);
  }

  /** The only two blocks of different length that no client can tell apart: ::fffe:0:0/95 and ::fffe:0:0/96, whose
      difference is exactly the IPv4-mapped range. */
  predicate Twins(client: Address, short: int, long: int) {
    client.family == V6 && short == 95 && long == 96 && client.Network(96) == MAPPED - 1
  }

  /** The address that shares all but the last bit of a prefix. */
  function Sibling(c: Address, length: nat): Address
    requires 1 <= length <= Width(c.family)
  {
    var k := c.Network(length);
    Address(c.family, Raise(if k % 2 == 0 then k + 1 else k - 1, Width(c.family) - length))
  }

  lemma SiblingShares(c: Address, length: nat)
    requires c.Valid() && 1 <= length <= Width(c.family)
    ensures var x := Sibling(c, length);
            && x.Network(length) == (var k := c.Network(length); if k % 2 == 0 then k + 1 else k - 1)
            && x.Network(length - 1) == c.Network(length - 1) && Drop(x.bits, Width(x.family)) == 0
  {
    var hosts := Width(c.family) - length;
    var x, k := Sibling(c, length), c.Network(length);
    var k' := if k % 2 == 0 then k + 1 else k - 1;
    DropRaise(k', hosts);
    DropMore(x.bits, hosts, 1);
    DropMore(c.bits, hosts, 1);
    assert Drop(k, 1) == k / 2 == k' / 2 == Drop(k', 1);
    SharedPrefix(x, c, 0, length - 1);
  }

  /** With at least 33 zero bits at the end an address is not mapped. */
  lemma RaisedIsNotMapped(k: nat, hosts: nat)
    requires hosts > 32
    ensures Drop(Raise(k, hosts), 32) != MAPPED
  {
    RaiseMore(k, hosts - 32, 32);
    DropRaise(Raise(k, hosts - 32), 32);
  }

  lemma {:induction false} RaiseMore(k: nat, m: nat, n: nat)
    ensures Raise(k, m + n) == Raise(Raise(k, m), n)
    decreases n
  {
    if n > 0 {
      RaiseMore(k, m, n - 1);
    }
  }

  lemma SiblingIsValid(c: Address, length: nat)
    requires c.Valid() && 1 <= length <= Width(c.family)
    requires c.family == V6 && length == 96 ==> c.Network(96) != MAPPED - 1
    ensures Sibling(c, length).Valid()
  {
    var x := Sibling(c, length);
    SiblingShares(c, length);
    if c.family == V6 && length < 96 {
      RaisedIsNotMapped(x.Network(length), 128 - length);
    } else if c.family == V6 && length > 96 {
      SharedPrefix(x, c, 96, length - 1);
    }
  }

  /** An address of the same shorter block that is outside the longer one. */
  lemma Neighbour(c: Address, short: nat, long: nat) returns (x: Address)
    requires c.Valid() && short < long <= Width(c.family) && !Twins(c, short, long)
    ensures x.Valid() && x.family == c.family
    ensures x.Network(short) == c.Network(short) && x.Network(long) != c.Network(long)
  {
    var length := if c.family == V6 && long == 96 && c.Network(96) == MAPPED - 1 then 95 else long;
    x := Sibling(c, length);
    SiblingShares(c, length);
    SiblingIsValid(c, length);
    SharedPrefix(x, c, short, length - 1);
    if x.Network(long) == c.Network(long) {
      SharedPrefix(x, c, length, long);
    }
  }

  /** Outside the mapped range both twins hold the same addresses. */
  lemma TwinsShare(c: Address, x: Address)
    requires Twins(c, 95, 96) && x.Valid() && x.family == V6 && x.Network(95) == c.Network(95)
    ensures x.Network(96) == c.Network(96)
  {
    DropMore(x.bits, 32, 1);
    DropMore(c.bits, 32, 1);
    assert Drop(x.Network(96), 1) == x.Network(96) / 2 && Drop(c.Network(96), 1) == c.Network(96) / 2;
  }

  lemma {:induction false} SameNumber(x: nat, y: nat, n: nat)
    requires Drop(x, n) == Drop(y, n) && LowBitsZero(x, n) && LowBitsZero(y, n)
    ensures x == y
    decreases n
  {
    if n > 0 {
      SameNumber(x / 2, y / 2, n - 1);
    }
  }

  lemma {:induction false} DropSmall(x: nat, n: nat)
    requires x < Raise(1, n)
    ensures Drop(x, n) == 0
    decreases n
  {
    if n > 0 {
      DropSmall(x / 2, n - 1);
    }
  }

  lemma {:induction false} RaisedLowBits(k: nat, n: nat)
    ensures LowBitsZero(Raise(k, n), n)
  {
    if n > 0 {
      RaisedLowBits(k, n - 1);
      var r := Raise(k, n - 1);
      assert 2 * r % 2 == 0 && 2 * r / 2 == r;
    }
  }

  lemma PowerOf16()
    ensures Raise(1, 16) == MAPPED + 1
  {
    Raise4(1);
    RaiseMore(1, 4, 4);
    Raise4(16);
    RaiseMore(1, 8, 4);
    Raise4(256);
    RaiseMore(1, 12, 4);
    Raise4(4096);
  }

  lemma Raise4(k: nat)
    ensures Raise(k, 4) == 16 * k
  {
    assert Raise(k, 1) == 2 * k;
    assert Raise(k, 2) == 4 * k;
    assert Raise(k, 3) == 8 * k;
  }

  /** A number of 16 bits has nothing above them. */
  lemma SixteenBits(k: nat, n: nat)
    requires k <= MAPPED && n >= 16
    ensures Drop(k, n) == 0
  {
    PowerOf16();
    DropSmall(k, 16);
    DropMore(k, 16, n - 16);
    ZeroStays(n - 16);
  }

  /** A base of 95 or 96 given bits in the neighbourhood of the mapped range. */
  lemma RaisedBase(k: nat, hosts: nat)
    requires 32 <= hosts <= 33 && k <= MAPPED
    ensures var base := Raise(k, hosts);
            LowBitsZero(base, hosts) && Drop(base, hosts) == k && Drop(base, 128) == 0
  {
    var base := Raise(k, hosts);
    assert LowBitsZero(base, hosts) by { RaisedLowBits(k, hosts); }
    assert Drop(base, hosts) == k by { DropRaise(k, hosts); }
    assert Drop(base, 128) == Drop(k, 128 - hosts) by { DropMore(base, hosts, 128 - hosts); }
    SixteenBits(k, 128 - hosts);
  }

  lemma {:induction false} ZeroStays(n: nat)
    ensures Drop(0, n) == 0
  {
    if n > 0 {
      ZeroStays(n - 1);
    }
  }

  // --------------------------------------------------- nested or disjoint

  /** A target covers exactly the addresses that share its prefix with any one of them. */
  lemma MatchesByPrefix(client: Address, target: Target, x: Address)
    requires target.Parsed() && Matches(client, target)
    ensures 0 <= Specificity(target) <= Width(client.family)
    ensures Matches(x, target)
       <==> x.family == client.family && x.Network(Specificity(target)) == client.Network(Specificity(target))
  {
  }

  /** Two targets that share an address are nested, and the longer prefix is the inner one: it lies within the
      other exactly when it is at least as specific, the twins apart. */
  lemma WithinIffLonger(client: Address, t: Target, u: Target)
    requires client.Valid() && t.Parsed() && u.Parsed() && Matches(client, t) && Matches(client, u)
    ensures Within(t, u)
       <==> Specificity(t) >= Specificity(u) || Twins(client, Specificity(t), Specificity(u))
  {
    MatchesByPrefix(client, t, client);
    MatchesByPrefix(client, u, client);
    if Specificity(t) >= Specificity(u) || Twins(client, Specificity(t), Specificity(u)) {
      forall x: Address | x.Valid() && Matches(x, t) ensures Matches(x, u) {
        MatchesByPrefix(client, t, x);
        MatchesByPrefix(client, u, x);
        if Specificity(t) >= Specificity(u) {
          SharedPrefix(x, client, Specificity(u), Specificity(t));
        } else {
          TwinsShare(client, x);
        }
      }
    } else {
      var x := Neighbour(client, Specificity(t), Specificity(u));
      MatchesByPrefix(client, t, x);
      MatchesByPrefix(client, u, x);
    }
  }

  /** Two distinct normalized blocks of the same length never share an address. */
  lemma SameLengthSameBlock(client: Address, t: Target, u: Target)
    requires t.Cidr? && u.Cidr? && t.Normalized() && u.Normalized() && t.length == u.length
    requires Matches(client, t) && Matches(client, u)
    ensures t == u
  {
    SameNumber(t.base.bits, u.base.bits, Width(client.family) - t.length);
  }

  /** Equally specific targets that share an address differ only as an address differs from its own
      full-length block. */
  lemma EqualSpecificity(client: Address, t: Target, u: Target)
    requires t.Normalized() && u.Normalized()
    requires Matches(client, t) && Matches(client, u) && Specificity(t) == Specificity(u)
    ensures t == u || (t == Exact(client) && u.FullLength()) || (u == Exact(client) && t.FullLength())
  {
    if t.Cidr? && u.Cidr? {
      SameLengthSameBlock(client, t, u);
    }
  }
}
