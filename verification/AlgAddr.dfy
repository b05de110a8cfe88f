/** The addresses the gateway hands out, and the keys it files them under. */
module AlgAddr {

  datatype Addr =
    | NoAddr
    | V4(a: bv8, b: bv8, c: bv8, d: bv8)
    | V6(h0: bv16, h1: bv16, h2: bv16, h3: bv16, h4: bv16, h5: bv16, h6: bv16, h7: bv16)

  const ANY4 := V4(0, 0, 0, 0)
  const ANY6 := V6(0, 0, 0, 0, 0, 0, 0, 0)

  /** A 4-in-6 address becomes the plain IPv4 address it carries. */
  function Unmap(ip: Addr): Addr {
    match ip
    case V6(0, 0, 0, 0, 0, 0xffff, x, y) =>
      V4(((x >> 8) & 0xff) as bv8, (x & 0xff) as bv8, ((y >> 8) & 0xff) as bv8, (y & 0xff) as bv8)
    case _ => ip
  }

  predicate IsUnspecified(ip: Addr) {
    ip == ANY4 || ip == ANY6
  }

  predicate IsGlobalUnicast4(ip: Addr)
    requires ip.V4?
  {
    && ip != ANY4
    && ip != V4(255, 255, 255, 255)
    && ip.a != 127
    && (ip.a & 0xf0) != 0xe0
    && !(ip.a == 169 && ip.b == 254)
  }

  /** 100.64.0.0/10, the shared address space of section 7 of RFC 6598. */
  predicate InCgnat(ip: Addr) {
    ip.V4? && ip.a == 100 && (ip.b & 0xc0) == 0x40
  }

  /** 64:ff9b:1:da19:100::/80, inside the local-use prefix 64:ff9b:1::/48 of RFC 8215. */
  predicate InLocalNat64(ip: Addr) {
    ip.V6? && ip.h0 == 0x64 && ip.h1 == 0xff9b && ip.h2 == 1 && ip.h3 == 0xda19 && ip.h4 == 0x100
  }

  datatype Family = Four | Six

  predicate Belongs(ip: Addr, f: Family) {
    match f
    case Four => InCgnat(ip)
    case Six => InLocalNat64(ip)
  }

  predicate Is(ip: Addr, f: Family) {
    match f
    case Four => ip.V4?
    case Six => ip.V6?
  }

  // ---- Keys -----------------------------------------------------------------------------

  const KEY4 := ":a0"
  const KEY6 := ":aaaa0"

  function Suffix(f: Family): string {
    match f
    case Four => KEY4
    case Six => KEY6
  }

  /** Where the answers for domain `q` are filed. */
  function Key(q: string, f: Family): string {
    q + Suffix(f)
  }

  /** Different domains or families never share a key, whatever characters the names hold. */
  lemma KeyInjective(q: string, f: Family, r: string, g: Family)
    ensures Key(q, f) == Key(r, g) <==> q == r && f == g
  {
    var k, l := Key(q, f), Key(r, g);
    if k == l {
      assert k[|k| - 3] == Suffix(f)[|Suffix(f)| - 3];
      assert l[|l| - 3] == Suffix(g)[|Suffix(g)| - 3];
      assert f == g;
      assert q == k[..|k| - |Suffix(f)|];
      assert r == l[..|l| - |Suffix(g)|];
    }
  }

  // ---- Generated addresses ----------------------------------------------------------------

  function Digit(d: nat): char
    requires d < 10
  {
    ['0', '1', '2', '3', '4', '5', '6', '7', '8', '9'][d]
  }

  function Itoa(n: nat): string {
    if n < 10 then [Digit(n)] else Itoa(n / 10) + [Digit(n % 10)]
  }

  /** Xor-folds a 64-bit hash to 22 bits. */
  function Fold22(v: bv64): (r: bv64)
    ensures r <= 0x3f_ffff
  {
    (((v >> 22) & 0xffff_ffff) ^ (v & 0xffff_ffff)) & 0x3f_ffff
  }

  /** Xor-folds a 64-bit hash to 48 bits. */
  function Fold48(v: bv64): (r: bv64)
    ensures r <= 0xffff_ffff_ffff
  {
    ((v >> 48) ^ v) & 0xffff_ffff_ffff
  }

  function Spread4(v22: bv64): (r: Addr)
    requires v22 <= 0x3f_ffff
    ensures InCgnat(r) && IsGlobalUnicast4(r)
  {
    V4(100, 64 + ((v22 >> 16) & 0xff) as bv8, ((v22 >> 8) & 0xff) as bv8, (v22 & 0xff) as bv8)
  }

  function Spread6(v48: bv64): (r: Addr)
    requires v48 <= 0xffff_ffff_ffff
    ensures InLocalNat64(r)
  {
    V6(0x64, 0xff9b, 1, 0xda19, 0x100,
       ((v48 >> 32) & 0xffff) as bv16, ((v48 >> 16) & 0xffff) as bv16, (v48 & 0xffff) as bv16)
  }

  /** The `salt`-th candidate address for a key, under any 64-bit string hash. */
  function Candidate(hash: string -> bv64, k: string, f: Family, salt: nat): (r: Addr)
    ensures Belongs(r, f)
  {
    match f
    case Four => Spread4(Fold22(hash(Itoa(salt) + k)))
    case Six => Spread6(Fold48(hash(Itoa(salt) + k)))
  }

  /** The generator does not waste its range: every address of the block is the spread of some fold. */
  lemma SpreadOnto(ip: Addr)
    requires InCgnat(ip)
    ensures exists v: bv64 :: v <= 0x3f_ffff && Spread4(v) == ip
  {
    var v: bv64 := ((ip.b & 0x3f) as bv64 << 16) | (ip.c as bv64 << 8) | ip.d as bv64;
    assert v <= 0x3f_ffff && Spread4(v) == ip;
  }
}
