/** The IPv6 generator: arithmetic on 128-bit addresses inside one prefix. An
    address is the number its sixteen big-endian bytes denote. */
module Ipv6Addr {
  import opened Wrappers

  type byte = x: int | 0 <= x < 256
  type Address = nat

  /** The number of bits of an address. */
  const Width: nat := 128

  function Pow2(n: nat): (r: nat)
    ensures r >= 1
  {
    if n == 0 then 1 else 2 * Pow2(n - 1)
  }

  /** Bitwise or and bitwise and of two natural numbers. */
  function Or(a: nat, b: nat): nat {
    if a == 0 then b
    else if b == 0 then a
    else 2 * Or(a / 2, b / 2) + (if a % 2 == 1 || b % 2 == 1 then 1 else 0)
  }

  function And(a: nat, b: nat): nat {
    if a == 0 || b == 0 then 0
    else 2 * And(a / 2, b / 2) + (if a % 2 == 1 && b % 2 == 1 then 1 else 0)
  }

  /** Minimal big-endian bytes of v. */
  function Bytes(v: nat): seq<byte> {
    if v == 0 then [] else Bytes(v / 256) + [v % 256]
  }

  function Zeros(n: nat): seq<byte> {
    seq(n, i => 0)
  }

  function Value(bytes: seq<byte>): nat {
    if |bytes| == 0 then 0 else 256 * Value(bytes[..|bytes| - 1]) + bytes[|bytes| - 1]
  }

  /** A parsed CIDR: the address as written, the mask length, and the mask width
      in bits (32 when the text was an IPv4 prefix). */
  datatype Cidr = Cidr(address: Address, ones: int, bits: int)

  datatype GeneratorError = InvalidPrefix | InvalidLength | IndexOutOfRange

  datatype Generator = Generator(ones: nat, base: nat, hostMax: nat)

  /** The addresses for which Go's To4 is not nil: `::ffff:a.b.c.d`. */
  predicate Mapped(a: Address) {
    a / 0x1_0000_0000 == 0xffff
  }

  /** The low k bits of a are zero. */
  predicate Aligned(a: nat, k: nat) {
    k == 0 || (a % 2 == 0 && Aligned(a / 2, k - 1))
  }

  predicate Valid(g: Generator) {
    && 1 <= g.ones <= 127
    && g.hostMax == Pow2(128 - g.ones)
    && Aligned(g.base, 128 - g.ones)
    && g.base + g.hostMax <= Pow2(Width)
  }

  /** A generator as NewGenerator builds it. */
  type Network = g: Generator | Valid(g) witness Generator(127, 0, 2)

  predicate InPrefix(g: Generator, a: Address) {
    g.base <= a < g.base + g.hostMax
  }

  function Mask(ones: nat): nat
    requires ones <= 128
  {
    assert Pow2(Width) >= Pow2(128 - ones) by { Pow2Monotone(128 - ones, 128); }
    Pow2(Width) - Pow2(128 - ones)
  }

  function NewGenerator(prefix: Option<Cidr>): (r: Result<Generator, GeneratorError>)
    requires prefix.Some? ==> prefix.value.address < Pow2(Width)
    ensures r.Ok? <==>
              && prefix.Some? && !Mapped(prefix.value.address)
              && prefix.value.bits == 128 && 1 <= prefix.value.ones <= 127
    ensures r.Ok? ==> Valid(r.value) && r.value.ones == prefix.value.ones && InPrefix(r.value, prefix.value.address)
  {
    if prefix.None? || Mapped(prefix.value.address) then Err(InvalidPrefix)
    else if prefix.value.bits != 128 || prefix.value.ones < 1 || prefix.value.ones > 127 then Err(InvalidLength)
    else
      var ones := prefix.value.ones;
      MaskedBase(prefix.value.address, ones);
      ClearedIsBase(prefix.value.address, ones);
      Ok(Generator(ones, And(prefix.value.address, Mask(ones)), Pow2(128 - ones)))
  }

  /** The address of a host: or the host into the base, take the minimal bytes and
      copy them to the end of a zeroed sixteen-byte buffer. */
  function FromHost(g: Generator, host: nat): (a: Address)
    requires Valid(g) && host < g.hostMax
    ensures a == g.base + host
  {
    var value := Or(g.base, host);
    OrIsSum(g.base, host, 128 - g.ones);
    PaddedValue(value);
    Value(Padded(value))
  }

  function Padded(value: nat): (ip: seq<byte>)
    requires value < Pow2(Width)
    ensures |ip| == 16
  {
    BytesLength(value, 16);
    Zeros(16 - |Bytes(value)|) + Bytes(value)
  }

  function FromIndex(g: Generator, index: nat): (r: Result<Address, GeneratorError>)
    requires Valid(g)
    ensures r.Ok? <==> index < g.hostMax
    ensures r.Ok? ==> r.value == g.base + index
    ensures r.Err? ==> r.error == IndexOutOfRange
  {
    if index >= g.hostMax then Err(IndexOutOfRange) else Ok(FromHost(g, index))
  }

  /** Whether the address, masked, is the network's base; never for IPv4-mapped ones. */
  predicate Contains(g: Generator, a: Address)
    requires 1 <= g.ones <= 127
  {
    !Mapped(a) && And(a, Mask(g.ones)) == g.base
  }

  // ---------- Arithmetic ----------

  lemma {:induction false} Pow2Add(m: nat, n: nat)
    ensures Pow2(m + n) == Pow2(m) * Pow2(n)
  {
    if m > 0 {
      Pow2Add(m - 1, n);
      assert Pow2(m + n) == 2 * (Pow2(m - 1) * Pow2(n));
    }
  }

  lemma MulMono(a: nat, b: nat, d: nat)
    requires a <= b
    ensures a * d <= b * d
  {
  }

  lemma {:induction false} OrIsSum(a: nat, h: nat, k: nat)
    requires Aligned(a, k) && h < Pow2(k)
    ensures Or(a, h) == a + h
  {
    if a > 0 && h > 0 {
      OrIsSum(a / 2, h / 2, k - 1);
    }
  }

  lemma ModSplit(v: nat, k: nat)
    requires k > 0
    ensures v % Pow2(k) == v % 2 + 2 * ((v / 2) % Pow2(k - 1))
  {
    var p := Pow2(k - 1);
    var q, r := (v / 2) / p, (v / 2) % p;
    assert v / 2 == q * p + r;
    assert v == q * (2 * p) + (2 * r + v % 2) by {
      assert 2 * (q * p) == q * (2 * p);
    }
    ModUnique(v, q, 2 * p, 2 * r + v % 2);
  }

  /** A number is aligned exactly when it is a multiple of the power of two. */
  lemma {:induction false} AlignedIsMultiple(a: nat, k: nat)
    ensures Aligned(a, k) <==> a % Pow2(k) == 0
  {
    if k == 0 {
      assert Pow2(k) == 1 && a % 1 == 0;
    } else {
      ModSplit(a, k);
      AlignedIsMultiple(a / 2, k - 1);
    }
  }

  lemma ModUnique(v: nat, q: nat, d: nat, r: nat)
    requires r < d && v == q * d + r
    ensures v % d == r && v / d == q
  {
    var q', r' := v / d, v % d;
    assert v == q' * d + r';
    if q' > q {
      MulMono(q + 1, q', d);
    } else if q' < q {
      MulMono(q' + 1, q, d);
    }
  }

  lemma {:induction false} AndAllOnes(v: nat, n: nat)
    requires v < Pow2(n)
    ensures And(v, Pow2(n) - 1) == v
  {
    if v > 0 {
      assert (Pow2(n) - 1) / 2 == Pow2(n - 1) - 1;
      AndAllOnes(v / 2, n - 1);
    }
  }

  lemma {:induction false} Pow2Monotone(m: nat, n: nat)
    requires m <= n
    ensures Pow2(m) <= Pow2(n)
  {
    if m < n {
      Pow2Monotone(m, n - 1);
    }
  }

  /** The number that the low k bits of v denote. */
  function Low(v: nat, k: nat): (r: nat)
    ensures r <= v
  {
    if k == 0 then 0 else v % 2 + 2 * Low(v / 2, k - 1)
  }

  lemma {:induction false} LowBelow(v: nat, k: nat)
    ensures Low(v, k) < Pow2(k)
  {
    if k > 0 {
      LowBelow(v / 2, k - 1);
    }
  }

  lemma {:induction false} LowIsRemainder(v: nat, k: nat)
    ensures Low(v, k) == v % Pow2(k)
  {
    if k == 0 {
      assert Pow2(k) == 1 && v % 1 == 0;
    } else {
      LowIsRemainder(v / 2, k - 1);
      ModSplit(v, k);
    }
  }

  /** With the low bits cleared a number is aligned, and its block stays within the range. */
  lemma {:induction false} ClearedIsAligned(v: nat, k: nat)
    ensures Aligned(v - Low(v, k), k)
  {
    if k > 0 {
      ClearedIsAligned(v / 2, k - 1);
      assert v - Low(v, k) == 2 * (v / 2 - Low(v / 2, k - 1));
    }
  }

  lemma {:induction false} ClearedFits(v: nat, n: nat, k: nat)
    requires v < Pow2(n + k)
    ensures v - Low(v, k) + Pow2(k) <= Pow2(n + k)
    decreases k
  {
    if k > 0 {
      ClearedFits(v / 2, n, k - 1);
    }
  }

  lemma AndEven(v: nat, m: nat)
    ensures And(v, 2 * m) == 2 * And(v / 2, m)
  {
  }

  /** And-ing with n ones followed by k zeros clears the low k bits. */
  lemma {:induction false} AndHighOnes(v: nat, n: nat, k: nat)
    requires v < Pow2(n + k)
    ensures Pow2(k) <= Pow2(n + k)
    ensures And(v, Pow2(n + k) - Pow2(k)) == v - Low(v, k)
    decreases k
  {
    Pow2Monotone(k, n + k);
    if k == 0 {
      AndAllOnes(v, n);
    } else {
      var m: nat := Pow2(n + (k - 1)) - Pow2(k - 1);
      assert Pow2(n + k) - Pow2(k) == 2 * m;
      AndHighOnes(v / 2, n, k - 1);
      AndEven(v, m);
    }
  }

  lemma MaskedAt(v: nat, ones: nat, k: nat, w: nat)
    requires w == ones + k && v < Pow2(w)
    ensures Pow2(k) <= Pow2(w)
    ensures And(v, Pow2(w) - Pow2(k)) == v - Low(v, k)
  {
    AndHighOnes(v, ones, k);
  }

  /** Masking clears exactly the host bits. */
  lemma MaskedBase(v: nat, ones: nat)
    requires v < Pow2(Width) && 1 <= ones <= 127
    ensures And(v, Mask(ones)) == v - Low(v, 128 - ones)
  {
    MaskedAt(v, ones, 128 - ones, Width);
  }

  lemma BlockAt(v: nat, ones: nat, k: nat, w: nat)
    requires w == ones + k && v < Pow2(w)
    ensures Aligned(v - Low(v, k), k) && v - Low(v, k) <= v < v - Low(v, k) + Pow2(k) <= Pow2(w)
  {
    ClearedIsAligned(v, k);
    ClearedFits(v, ones, k);
    LowBelow(v, k);
  }

  /** What is left is the base of a block of addresses that v belongs to. */
  lemma ClearedIsBase(v: nat, ones: nat)
    requires v < Pow2(Width) && 1 <= ones <= 127
    ensures var g := Generator(ones, v - Low(v, 128 - ones), Pow2(128 - ones)); Valid(g) && InPrefix(g, v)
  {
    BlockAt(v, ones, 128 - ones, Width);
  }

  lemma {:induction false} BytesLength(v: nat, n: nat)
    requires v < Pow2(8 * n)
    ensures |Bytes(v)| <= n
  {
    if v > 0 {
      assert n > 0;
      Pow2Add(8, 8 * (n - 1));
      assert Pow2(8) == 256;
      BytesLength(v / 256, n - 1);
    }
  }

  lemma {:induction false} BytesValue(v: nat)
    ensures Value(Bytes(v)) == v
  {
    if v > 0 {
      BytesValue(v / 256);
      assert Bytes(v)[..|Bytes(v)| - 1] == Bytes(v / 256);
    }
  }

  lemma {:induction false} LeadingZeros(n: nat, bytes: seq<byte>)
    ensures Value(Zeros(n) + bytes) == Value(bytes)
    decreases n, |bytes|
  {
    var all := Zeros(n) + bytes;
    if |bytes| > 0 {
      assert all[..|all| - 1] == Zeros(n) + bytes[..|bytes| - 1];
      LeadingZeros(n, bytes[..|bytes| - 1]);
    } else if n > 0 {
      assert all[..n - 1] == Zeros(n - 1) + bytes;
      LeadingZeros(n - 1, bytes);
    }
  }

  lemma PaddedValue(value: nat)
    requires value < Pow2(Width)
    ensures Value(Padded(value)) == value
  {
    BytesLength(value, 16);
    BytesValue(value);
    LeadingZeros(16 - |Bytes(value)|, Bytes(value));
  }

  // ---------- The generator is a bijection ----------

  /** Hosts below hostMax and addresses of the prefix correspond one to one. */
  lemma GeneratorBijection(g: Generator)
    requires Valid(g)
    ensures forall a: Address :: InPrefix(g, a) <==> exists h: nat :: h < g.hostMax && FromHost(g, h) == a
    ensures forall h: nat, h': nat :: h < g.hostMax && h' < g.hostMax && FromHost(g, h) == FromHost(g, h') ==> h == h'
  {
    forall a: Address | InPrefix(g, a)
      ensures exists h: nat :: h < g.hostMax && FromHost(g, h) == a
    {
      assert FromHost(g, a - g.base) == a;
    }
  }

  /** Contains is membership in the prefix, except that it rejects every
      IPv4-mapped address (section 2.5.5.2 of RFC 4291). */
  lemma ContainsIsMembership(g: Generator, a: Address)
    requires Valid(g) && a < Pow2(Width)
    ensures Contains(g, a) <==> InPrefix(g, a) && !Mapped(a)
  {
    MaskedBase(a, g.ones);
    LowIsRemainder(a, 128 - g.ones);
    AlignedIsMultiple(g.base, 128 - g.ones);
    BlockOf(g.base, g.hostMax, a);
  }

  lemma BlockOf(base: nat, h: nat, a: nat)
    requires h > 0 && base % h == 0
    ensures a - a % h == base <==> base <= a < base + h
    ensures base <= a < base + h ==> a / h == base / h
  {
    var q := base / h;
    assert base == q * h;
    if base <= a < base + h {
      ModUnique(a, q, h, a - base);
    }
  }

  /** A generator made from a prefix draws only inside that prefix, whatever the index. */
  lemma GeneratedAddressesShareThePrefix(prefix: Cidr, i: nat)
    requires prefix.address < Pow2(Width) && NewGenerator(Some(prefix)).Ok?
    requires i < NewGenerator(Some(prefix)).value.hostMax
    ensures var g := NewGenerator(Some(prefix)).value;
            FromIndex(g, i).value / g.hostMax == prefix.address / g.hostMax
  {
    var g := NewGenerator(Some(prefix)).value;
    AlignedIsMultiple(g.base, 128 - g.ones);
    BlockOf(g.base, g.hostMax, g.base + i);
    BlockOf(g.base, g.hostMax, prefix.address);
  }
}
