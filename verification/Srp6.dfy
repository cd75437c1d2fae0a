/** Modular exponentiation, and the agreement of the two sides of SRP6. */
module Srp6Algebra {
  import opened BigNumber

  function PowMod(base: nat, e: nat, n: nat): nat
    requires n > 0
  {
    Power(base, e) % n
  }

  /** `(A * v^u)^b mod N`. */
  function ServerKey(n: nat, bigA: nat, v: nat, u: nat, b: nat): nat
    requires n > 0
  {
    PowMod(bigA * PowMod(v, u, n), b, n)
  }

  /** `(3 * v + g^b) mod N`. */
  function PublicEphemeral(n: nat, g: nat, v: nat, b: nat): nat
    requires n > 0
  {
    (v * 3 + PowMod(g, b, n)) % n
  }

  /** `(B - 3 * g^x)^(a + u * x) mod N`, the client formula of section 2.6 of RFC 5054 with k = 3. */
  function ClientKey(n: nat, g: nat, bigB: nat, x: nat, a: nat, u: nat): nat
    requires n > 0
  {
    PowMod((bigB - 3 * PowMod(g, x, n)) % n, a + u * x, n)
  }

  // ---- Congruences ----

  ghost predicate Same(a: int, b: int, n: nat) requires n > 0 { a % n == b % n }

  lemma Witness(a: int, b: int, n: nat) returns (k: int)
    requires n > 0 && Same(a, b, n)
    ensures a == b + k * n
  {
    k := a / n - b / n;
    assert (a / n) * n - (b / n) * n == k * n;
  }

  lemma SameShift(a: int, k: int, n: nat)
    requires n > 0
    ensures Same(a + k * n, a, n)
  {
    var b := a + k * n;
    var d := b / n - a / n - k;
    assert d * n == a % n - b % n by {
      assert (b / n) * n == b - b % n && (a / n) * n == a - a % n;
      assert d * n == (b / n) * n - (a / n) * n - k * n;
    }
    if d >= 1 { Scale(n, d); }
    if d <= -1 { Scale(n, -d); }
  }

  lemma SameReduced(a: int, n: nat)
    requires n > 0
    ensures Same(a % n, a, n)
  {
    SameShift(a % n, a / n, n);
    assert a == a % n + (a / n) * n;
  }

  lemma SameAdd(a: int, b: int, c: int, n: nat)
    requires n > 0 && Same(a, b, n)
    ensures Same(a + c, b + c, n)
  {
    var k := Witness(a, b, n);
    SameShift(b + c, k, n);
    assert a + c == b + c + k * n;
  }

  lemma SameMul(a: int, b: int, c: int, n: nat)
    requires n > 0 && Same(a, b, n)
    ensures Same(a * c, b * c, n)
  {
    var k := Witness(a, b, n);
    SameShift(b * c, k * c, n);
    assert a * c == b * c + (k * c) * n;
  }

  lemma {:induction false} SamePower(a: nat, b: nat, e: nat, n: nat)
    requires n > 0 && Same(a, b, n)
    ensures Same(Power(a, e), Power(b, e), n)
  {
    if e > 0 {
      var p, q := Power(a, e - 1), Power(b, e - 1);
      SamePower(a, b, e - 1, n);
      SameMul(p, q, a, n);
      SameMul(a, b, q, n);
      assert Power(a, e) == p * a && Power(b, e) == b * q && q * a == a * q;
    }
  }

  // ---- Exponents ----

  lemma {:induction false} PowerAdd(g: nat, a: nat, b: nat)
    ensures Power(g, a + b) == Power(g, a) * Power(g, b)
  {
    if a > 0 {
      PowerAdd(g, a - 1, b);
      assert (g * Power(g, a - 1)) * Power(g, b) == g * (Power(g, a - 1) * Power(g, b));
    }
  }

  lemma {:induction false} PowerTimes(g: nat, a: nat, b: nat)
    ensures Power(Power(g, a), b) == Power(g, a * b)
  {
    if b > 0 {
      PowerTimes(g, a, b - 1);
      PowerAdd(g, a, a * (b - 1));
      assert a + a * (b - 1) == a * b;
    }
  }

  lemma {:induction false} PowerProduct(g: nat, h: nat, e: nat)
    ensures Power(g * h, e) == Power(g, e) * Power(h, e)
  {
    if e > 0 {
      var p, q := Power(g, e - 1), Power(h, e - 1);
      PowerProduct(g, h, e - 1);
      assert (g * h) * (p * q) == (g * p) * (h * q);
    }
  }

  // ---- Agreement ----

  /** `A * v^u` is `g^(a + u * x)` modulo N. */
  lemma ServerBase(n: nat, g: nat, a: nat, x: nat, u: nat)
    requires n > 0
    ensures Same(PowMod(g, a, n) * PowMod(PowMod(g, x, n), u, n), Power(g, a + u * x), n)
  {
    var ga, gx := Power(g, a), Power(g, x);
    SameReduced(gx, n);
    SamePower(PowMod(g, x, n), gx, u, n);
    PowerTimes(g, x, u);
    var w := PowMod(PowMod(g, x, n), u, n);
    SameReduced(Power(PowMod(g, x, n), u), n);
    assert Same(w, Power(g, x * u), n) && x * u == u * x;
    SameReduced(ga, n);
    SameMul(PowMod(g, a, n), ga, w, n);
    SameMul(w, Power(g, u * x), ga, n);
    assert ga * w == w * ga && Power(g, u * x) * ga == ga * Power(g, u * x);
    PowerAdd(g, a, u * x);
  }

  /** `B - 3 * g^x` is `g^b` modulo N. */
  lemma ClientBase(n: nat, g: nat, x: nat, b: nat)
    requires n > 0
    ensures var v := PowMod(g, x, n); Same((PublicEphemeral(n, g, v, b) - 3 * v) % n, Power(g, b), n)
  {
    var v, gb := PowMod(g, x, n), PowMod(g, b, n);
    SameReduced(v * 3 + gb, n);
    SameAdd((v * 3 + gb) % n, v * 3 + gb, -3 * v, n);
    SameReduced(PublicEphemeral(n, g, v, b) - 3 * v, n);
    SameReduced(Power(g, b), n);
  }

  /** Both sides reach the same key, for every modulus, generator and choice of secrets. */
  lemma KeyAgreement(n: nat, g: nat, x: nat, a: nat, b: nat, u: nat)
    requires n > 0
    ensures var v := PowMod(g, x, n);
            ServerKey(n, PowMod(g, a, n), v, u, b) == ClientKey(n, g, PublicEphemeral(n, g, v, b), x, a, u)
  {
    hide PowMod, Power;
    var v, e := PowMod(g, x, n), a + u * x;
    ServerSide(n, g, a, x, u, b);
    ClientBase(n, g, x, b);
    PowModSame(n, (PublicEphemeral(n, g, v, b) - 3 * v) % n, g, b, e);
    assert e * b == b * e;
  }

  lemma ServerSide(n: nat, g: nat, a: nat, x: nat, u: nat, b: nat)
    requires n > 0
    ensures ServerKey(n, PowMod(g, a, n), PowMod(g, x, n), u, b) == PowMod(g, (a + u * x) * b, n)
  {
    hide PowMod, Power;
    ServerBase(n, g, a, x, u);
    PowModSame(n, PowMod(g, a, n) * PowMod(PowMod(g, x, n), u, n), g, a + u * x, b);
  }

  lemma PowModSame(n: nat, base: nat, g: nat, d: nat, e: nat)
    requires n > 0 && Same(base, Power(g, d), n)
    ensures PowMod(base, e, n) == PowMod(g, d * e, n)
  {
    SamePower(base, Power(g, d), e, n);
    PowerTimes(g, d, e);
  }

  /** A generator with an inverse never reaches 0. */
  lemma PowerNeverZero(n: nat, g: nat, w: nat, e: nat)
    requires n > 1 && Same(g * w, 1, n)
    ensures PowMod(g, e, n) != 0
  {
    SamePower(g * w, 1, e, n);
    PowerOne(e);
    PowerProduct(g, w, e);
    if PowMod(g, e, n) == 0 {
      SameMul(Power(g, e), 0, Power(w, e), n);
    }
  }

  lemma {:induction false} PowerOne(e: nat)
    ensures Power(1, e) == 1
  {
    if e > 0 { PowerOne(e - 1); }
  }
}

/** `SRP6`: the server side of the handshake, and an honest client against it. */
module Srp6 {
  import opened Basics
  import opened BigNumber
  import opened Srp6Algebra

  const DIGEST_LENGTH: nat := 20

  type Digest = d: seq<byte> | |d| == 20 witness seq(20, _ => 0)

  /** SHA-1 as an arbitrary function from bytes to digests. */
  type Sha = seq<byte> -> Digest

  const PRIME: nat := 0x894B645E89E1535BBDAD5B8B290650530801B18EBFBF5E8FAB3C82872A3E9BB7
  const GENERATOR: nat := 7

  // ---- Derived values ----

  /** Least widths in bytes to which salt, public ephemerals and strong key are padded before hashing. */
  datatype Widths = Widths(salt: nat, public: nat, key: nat)

  /** The source hashes numbers at their own length. */
  const UNPADDED := Widths(0, 0, 0)

  /** The widths of the message fields that carry them. */
  const FIXED := Widths(32, 32, 40)

  function Scrambler(sha: Sha, w: Widths, bigA: nat, bigB: nat): nat {
    SetBinary(sha(AsByteArray(bigA, w.public) + AsByteArray(bigB, w.public)))
  }

  /** The digest spelt by the hexadecimal text `ri`; a text that does not parse counts as 0. */
  function IdentityDigest(ri: string): (d: seq<byte>)
    ensures |d| == DIGEST_LENGTH
  {
    var parsed := SetHexStr(ri);
    var i := if parsed.Some? then parsed.value else 0;
    var le: seq<byte> := if NumBytes(i) <= DIGEST_LENGTH then AsByteArray(i, 0) else [];
    var copyLen := if |le| < DIGEST_LENGTH then |le| else DIGEST_LENGTH;
    var digest: seq<nat> := le[..copyLen] + Zeros(DIGEST_LENGTH - copyLen);
    Reversed(digest)
  }

  function PrivateKey(sha: Sha, w: Widths, salt: nat, identity: seq<byte>): nat {
    SetBinary(sha(AsByteArray(salt, w.salt) + identity))
  }

  function Every2nd(t: seq<byte>, first: nat, count: nat): (r: seq<byte>)
    requires first + 2 * count <= |t| + 1
    ensures |r| == count && forall i | 0 <= i < count :: r[i] == t[first + 2 * i]
  {
    seq(count, i requires 0 <= i < count => t[first + 2 * i])
  }

  function Interleaved(even: seq<byte>, odd: seq<byte>): (r: seq<byte>)
    requires |even| == |odd|
    ensures |r| == 2 * |even|
    ensures forall i | 0 <= i < |even| :: r[2 * i] == even[i] && r[2 * i + 1] == odd[i]
  {
    if even == [] then [] else [even[0], odd[0]] + Interleaved(even[1..], odd[1..])
  }

  function StrongKey(sha: Sha, bigS: nat): nat {
    var t := AsByteArray(bigS, 32);
    SetBinary(Interleaved(sha(Every2nd(t, 0, 16)), sha(Every2nd(t, 1, 16))))
  }

  function Xor(a: byte, b: byte): byte { ((a as bv8) ^ (b as bv8)) as nat }

  /** `H(N) xor H(g)`. */
  function Mixed(sha: Sha): (d: seq<byte>)
    ensures |d| == 20
  {
    var hn, hg := sha(AsByteArray(PRIME, 0)), sha(AsByteArray(GENERATOR, 0));
    seq(20, i requires 0 <= i < 20 => Xor(hn[i], hg[i]))
  }

  /** `(H(N) xor H(g)) || H(username) || s || A || B || K`. */
  function ProofMessage(sha: Sha, w: Widths, username: seq<byte>, s: nat, bigA: nat, bigB: nat, k: nat): seq<byte> {
    Mixed(sha) + sha(username) + AsByteArray(s, w.salt) + AsByteArray(bigA, w.public) + AsByteArray(bigB, w.public)
    + AsByteArray(k, w.key)
  }

  function ProofDigest(sha: Sha, w: Widths, username: seq<byte>, s: nat, bigA: nat, bigB: nat, k: nat): Digest {
    sha(ProofMessage(sha, w, username, s, bigA, bigB, k))
  }

  // ---- Encoding lemmas ----

  /** The repair restores every digest, leading zero bytes included, from the 40 digits that spell it. */
  lemma IdentityRestored(d: Digest)
    ensures IdentityDigest(HexText(Nibbles(d))) == d
  {
    var ri := HexText(Nibbles(d));
    DigestText(d);
    DigitsOfValue(256, d);
    var n := Value(256, d);
    var be := Digits(256, n);
    assert AsByteArray(n, 0) == Reversed(be);
    var le: seq<nat> := Reversed(be) + Zeros(DIGEST_LENGTH - |be|);
    assert AsByteArray(n, 0)[..|be|] == AsByteArray(n, 0);
    assert IdentityDigest(ri) == Reversed(le);
    forall i | 0 <= i < DIGEST_LENGTH ensures Reversed(le)[i] == d[i] {
    }
  }

  /** Numbers below 2^256 travel in exactly 32 bytes. */
  lemma PrimeFits()
    ensures PRIME < Power(256, 32)
  {
    assert Power(256, 8) == 0x1_0000000000000000;
    PowerAdd(256, 8, 8);
    PowerAdd(256, 16, 16);
  }

  /**
   The comparison of `proof`: a message is accepted exactly when it is the digest, cut or padded with zero bytes to
   the message's own length.
   */
  lemma ProofCompares(digest: Digest, message: seq<byte>)
    ensures var ours := AsByteArray(SetBinary(digest), |message|);
            && |ours| >= |message|
            && (ours[..|message|] == message <==> message == (digest + Zeros(|message|))[..|message|])
  {
    var n := SetBinary(digest);
    var be := Digits(256, n);
    DigitsOfValue(256, Reversed(digest));
    var ours := AsByteArray(n, |message|);
    forall i | 0 <= i < |message| ensures ours[i] == (digest + Zeros(|message|))[i] {
      if i < |be| {
        assert ours[i] == be[|be| - 1 - i] == Reversed(digest)[19 - i];
      } else if i < 20 {
        assert Reversed(digest)[19 - i] == 0;
      }
    }
    assert ours[..|message|] == (digest + Zeros(|message|))[..|message|];
  }

  /** Byte by byte the exclusive or of two digests. */
  ghost predicate MixedOf(hn: Digest, hg: Digest, mixed: seq<byte>) {
    |mixed| == 20 && forall i | 0 <= i < 20 :: mixed[i] as bv8 == (hn[i] as bv8) ^ (hg[i] as bv8)
  }

  lemma MixedIs(sha: Sha)
    ensures MixedOf(sha(AsByteArray(PRIME, 0)), sha(AsByteArray(7, 0)), Mixed(sha))
  {
    hide AsByteArray;
  }

  /**
   The even bytes and the odd bytes of the session key's 32 are hashed apart; the two digests, byte by byte in turn,
   spell the strong key.
   */
  ghost predicate HashedInHalves(sha: Sha, bigS: nat, k: nat) {
    exists even: seq<byte>, odd: seq<byte>, spelt: seq<byte> ::
      Halves(AsByteArray(bigS, 32), even, odd) && InTurn(sha(even), sha(odd), spelt) && k == SetBinary(spelt)
  }

  ghost predicate Halves(t: seq<byte>, even: seq<byte>, odd: seq<byte>) {
    |even| == |odd| == 16 && |t| >= 32 && forall i | 0 <= i < 16 :: even[i] == t[2 * i] && odd[i] == t[2 * i + 1]
  }

  ghost predicate InTurn(even: Digest, odd: Digest, spelt: seq<byte>) {
    |spelt| == 40 && forall i | 0 <= i < 20 :: spelt[2 * i] == even[i] && spelt[2 * i + 1] == odd[i]
  }

  lemma AtLeastWide(n: nat, minSize: nat)
    ensures |AsByteArray(n, minSize)| >= minSize
  {
  }

  lemma HalvesHashed(sha: Sha, even: seq<byte>, odd: seq<byte>, spelt: seq<byte>, bigS: nat)
    requires Halves(AsByteArray(bigS, 32), even, odd) && InTurn(sha(even), sha(odd), spelt)
    ensures HashedInHalves(sha, bigS, SetBinary(spelt))
  {
    hide AsByteArray, SetBinary, Halves, InTurn;
  }

  // ---- The server ----

  class Server {
    const sha: Sha
    var s: nat
    var v: nat
    var b: nat
    var bigB: nat
    var bigA: nat
    var u: nat
    var bigS: nat
    var k: nat
    var m: nat

    constructor (sha: Sha)
      ensures this.sha == sha
      ensures s == v == b == bigB == bigA == u == bigS == k == m == 0
    {
      this.sha := sha;
      s, v, b, bigB, bigA := 0, 0, 0, 0, 0;
      u, bigS, k, m := 0, 0, 0, 0;
    }

    method SetSalt(text: string) returns (ok: bool)
      modifies this`s
      ensures s == if SetHexStr(text).Some? then SetHexStr(text).value else old(s)
      ensures ok <==> SetHexStr(text).Some? && s != 0
    {
      var parsed := SetHexStr(text);
      if parsed.Some? { s := parsed.value; }
      ok := parsed.Some? && s != 0;
    }

    method SetVerifier(text: string) returns (ok: bool)
      modifies this`v
      ensures v == if SetHexStr(text).Some? then SetHexStr(text).value else old(v)
      ensures ok <==> SetHexStr(text).Some? && v != 0
    {
      var parsed := SetHexStr(text);
      if parsed.Some? { v := parsed.value; }
      ok := parsed.Some? && v != 0;
    }

    /**
     `calculate_verifier`: refused, with the verifier untouched, exactly when the salt does not read as a positive
     number.
     */
    method CalculateVerifier(ri: string, salt: string) returns (ok: bool)
      modifies this`s, this`v
      ensures s == if SetHexStr(salt).Some? then SetHexStr(salt).value else old(s)
      ensures ok <==> SetHexStr(salt).Some? && s != 0
      ensures v == if ok then PowMod(GENERATOR, PrivateKey(sha, UNPADDED, s, IdentityDigest(ri)), PRIME) else old(v)
      ensures ok ==> v == PowMod(7, SetBinary(sha(AsByteArray(s, 0) + IdentityDigest(ri))), PRIME)
    {
      ok := SetSalt(salt);
      if ok {
        v := PowMod(GENERATOR, PrivateKey(sha, UNPADDED, s, IdentityDigest(ri)), PRIME);
      }
    }

    /** `random` is the secret drawn; the source's assertion that `g^b mod N` fits 32 bytes never fails. */
    method CalculateHostPublicEphemeral(random: nat)
      modifies this`b, this`bigB
      ensures b == random && bigB == PublicEphemeral(PRIME, GENERATOR, v, b) < PRIME
      ensures bigB == (3 * v + PowMod(7, b, PRIME)) % PRIME
    {
      b := random;
      var gMod := PowMod(GENERATOR, b, PRIME);
      bigB := (v * 3 + gMod) % PRIME;
      PrimeFits();
      ByteLength(gMod, 32);
      assert NumBytes(gMod) <= 32;
    }

    /** Refused exactly when the client's number is a multiple of N, 0 included. */
    method CalculateSessionKey(clientA: seq<byte>) returns (ok: bool)
      modifies this`bigA, this`u, this`bigS
      ensures bigA == SetBinary(clientA) && (ok <==> bigA % PRIME != 0)
      ensures ok ==> u == Scrambler(sha, UNPADDED, bigA, bigB) && bigS == ServerKey(PRIME, bigA, v, u, b) < PRIME
      ensures ok ==> u == SetBinary(sha(AsByteArray(bigA, 0) + AsByteArray(bigB, 0)))
      ensures ok ==> bigS == PowMod(bigA * PowMod(v, u, PRIME), b, PRIME)
      ensures !ok ==> u == old(u) && bigS == old(bigS)
    {
      bigA := SetBinary(clientA);
      if bigA == 0 { return false; }
      if bigA % PRIME == 0 { return false; }
      u := SetBinary(sha(AsByteArray(bigA, 0) + AsByteArray(bigB, 0)));
      var vMod := PowMod(v, u, PRIME);
      bigS := PowMod(bigA * vMod, b, PRIME);
      return true;
    }

    method HashSessionKey()
      modifies this`k
      ensures k == StrongKey(sha, bigS) && HashedInHalves(sha, bigS, k)
    {
      hide SetBinary, HashedInHalves, AsByteArray;
      var t := AsByteArray(bigS, 32);
      AtLeastWide(bigS, 32);
      var t1 := new byte[16];
      var vk := new byte[40];
      for i := 0 to 16
        invariant forall j | 0 <= j < i :: t1[j] == t[2 * j]
      {
        t1[i] := t[i * 2];
      }
      assert t1[..] == Every2nd(t, 0, 16);
      var even := sha(t1[..]);
      for i := 0 to 20
        invariant forall j | 0 <= j < i :: vk[2 * j] == even[j]
      {
        vk[i * 2] := even[i];
      }
      for i := 0 to 16
        invariant forall j | 0 <= j < i :: t1[j] == t[1 + 2 * j]
        invariant forall j | 0 <= j < 20 :: vk[2 * j] == even[j]
      {
        t1[i] := t[i * 2 + 1];
      }
      assert t1[..] == Every2nd(t, 1, 16);
      var odd := sha(t1[..]);
      for i := 0 to 20
        invariant forall j | 0 <= j < 20 :: vk[2 * j] == even[j]
        invariant forall j | 0 <= j < i :: vk[2 * j + 1] == odd[j]
      {
        vk[i * 2 + 1] := odd[i];
      }
      InterleavedUnique(even, odd, vk[..]);
      k := SetBinary(vk[..]);
      HalvesHashed(sha, Every2nd(t, 0, 16), Every2nd(t, 1, 16), vk[..], bigS);
    }

    /** Two digests mixed byte by byte, then one hash over them, the name's digest and four numbers. */
    method CalculateProof(username: seq<byte>)
      modifies this`m
      ensures m == SetBinary(ProofDigest(sha, UNPADDED, username, s, bigA, bigB, k))
      ensures AsByteArray(m, DIGEST_LENGTH) == ProofDigest(sha, UNPADDED, username, s, bigA, bigB, k)
      ensures exists mixed: seq<byte> ::
                && MixedOf(sha(AsByteArray(PRIME, 0)), sha(AsByteArray(7, 0)), mixed)
                && m == SetBinary(sha(mixed + sha(username) + AsByteArray(s, 0) + AsByteArray(bigA, 0)
                                      + AsByteArray(bigB, 0) + AsByteArray(k, 0)))
    {
      hide AsByteArray, SetBinary, Mixed;
      MixedIs(sha);
      var hash := MixDigests();
      var data := UpdateBigNumbers(hash + sha(username), [s, bigA, bigB, k]);
      EncodedFour(s, bigA, bigB, k);
      assert data == ProofMessage(sha, UNPADDED, username, s, bigA, bigB, k);
      m := SetBinary(sha(data));
      BytesRoundTrip(sha(data));
    }

    method MixDigests() returns (mixed: seq<byte>)
      ensures mixed == Mixed(sha)
    {
      hide AsByteArray, Xor;
      var primeDigest, generatorDigest := sha(AsByteArray(PRIME, 0)), sha(AsByteArray(GENERATOR, 0));
      var hash := new byte[20](i requires 0 <= i < 20 => primeDigest[i]);
      for i := 0 to 20
        invariant forall j | 0 <= j < i :: hash[j] == Xor(primeDigest[j], generatorDigest[j])
        invariant forall j | i <= j < 20 :: hash[j] == primeDigest[j]
      {
        hash[i] := Xor(hash[i], generatorDigest[i]);
      }
      mixed := hash[..];
    }

    method UpdateBigNumbers(data0: seq<byte>, numbers: seq<nat>) returns (data: seq<byte>)
      ensures data == data0 + Encoded(numbers)
    {
      hide AsByteArray;
      data := data0;
      for i := 0 to |numbers|
        invariant data == data0 + Encoded(numbers[..i])
      {
        data := data + AsByteArray(numbers[i], 0);
        EncodedNext(numbers[..i], numbers[i]);
        assert numbers[..i + 1] == numbers[..i] + [numbers[i]];
      }
      assert numbers[..|numbers|] == numbers;
    }

    method Proof(clientM: seq<byte>) returns (accepted: bool)
      ensures forall digest: Digest | m == SetBinary(digest) ::
                accepted <==> clientM == (digest + Zeros(|clientM|))[..|clientM|]
    {
      var ours := AsByteArray(m, |clientM|);
      accepted := ours[..|clientM|] == clientM[..|clientM|];
      forall digest: Digest | m == SetBinary(digest)
        ensures accepted <==> clientM == (digest + Zeros(|clientM|))[..|clientM|]
      {
        ProofCompares(digest, clientM);
      }
    }
  }

  /** What `update_big_numbers` feeds to the hash. */
  ghost function Encoded(ns: seq<nat>): seq<byte> {
    if ns == [] then [] else Encoded(ns[..|ns| - 1]) + AsByteArray(ns[|ns| - 1], 0)
  }

  lemma EncodedNext(ns: seq<nat>, n: nat)
    ensures Encoded(ns + [n]) == Encoded(ns) + AsByteArray(n, 0)
  {
    assert (ns + [n])[..|ns|] == ns;
  }

  lemma EncodedFour(a: nat, b: nat, c: nat, d: nat)
    ensures Encoded([a, b, c, d]) == AsByteArray(a, 0) + AsByteArray(b, 0) + AsByteArray(c, 0) + AsByteArray(d, 0)
  {
    hide AsByteArray;
    EncodedNext([], a);
    EncodedNext([a], b);
    EncodedNext([a, b], c);
    EncodedNext([a, b, c], d);
    assert [] + [a] == [a] && [a] + [b] == [a, b] && [a, b] + [c] == [a, b, c] && [a, b, c] + [d] == [a, b, c, d];
  }

  lemma {:induction false} InterleavedUnique(even: seq<byte>, odd: seq<byte>, r: seq<byte>)
    requires |even| == |odd| && |r| == 2 * |even|
    requires forall i | 0 <= i < |even| :: r[2 * i] == even[i] && r[2 * i + 1] == odd[i]
    ensures r == Interleaved(even, odd)
  {
    var t := Interleaved(even, odd);
    forall j | 0 <= j < |r| ensures r[j] == t[j] {
      var i := j / 2;
      assert j == 2 * i || j == 2 * i + 1;
      assert r[2 * i] == even[i] && r[2 * i + 1] == odd[i];
    }
  }

  // ---- A login from end to end ----

  /** What a client that knows the identity digest sends back for a salt and a host ephemeral, with secret `a`. */
  datatype Answer = Answer(bigA: nat, key: nat, proof: Digest)

  function ClientAnswer(sha: Sha, w: Widths, username: seq<byte>, identity: Digest, s: nat, bigB: nat, a: nat): Answer {
    var x := PrivateKey(sha, w, s, identity);
    var bigA := PowMod(GENERATOR, a, PRIME);
    var bigS := ClientKey(PRIME, GENERATOR, bigB, x, a, Scrambler(sha, w, bigA, bigB));
    var key := StrongKey(sha, bigS);
    Answer(bigA, key, ProofDigest(sha, w, username, s, bigA, bigB, key))
  }

  /** Verifier and salt texts from the database, then the host ephemeral; None when they are broken. */
  method LogonChallenge(srp: Server, verifier: string, salt: string, random: nat) returns (ok: bool)
    modifies srp
    ensures ok <==> && SetHexStr(verifier).Some? && SetHexStr(verifier).value != 0
                    && SetHexStr(salt).Some? && SetHexStr(salt).value != 0
    ensures ok ==> && srp.v == SetHexStr(verifier).value && srp.s == SetHexStr(salt).value && srp.b == random
                   && srp.bigB == PublicEphemeral(PRIME, GENERATOR, srp.v, srp.b) < PRIME
  {
    ok := srp.SetVerifier(verifier);
    if ok { ok := srp.SetSalt(salt); }
    if ok { srp.CalculateHostPublicEphemeral(random); }
  }

  /** The session key, its hash and the proof, in the order a logon proof message triggers them. */
  method LogonProof(srp: Server, username: seq<byte>, clientA: seq<byte>, clientM: seq<byte>) returns (accepted: bool)
    modifies srp`bigA, srp`u, srp`bigS, srp`k, srp`m
    ensures srp.bigA == SetBinary(clientA)
    ensures accepted <==>
              var key := StrongKey(srp.sha,
                                   ServerKey(PRIME, srp.bigA, srp.v, Scrambler(srp.sha, UNPADDED, srp.bigA, srp.bigB),
                                             srp.b));
              && srp.bigA % PRIME != 0
              && clientM == (ProofDigest(srp.sha, UNPADDED, username, srp.s, srp.bigA, srp.bigB, key)
                             + Zeros(|clientM|))[..|clientM|]
    ensures srp.bigA % PRIME != 0 ==> srp.k == StrongKey(srp.sha, srp.bigS)
    ensures srp.bigA % PRIME != 0 ==>
              srp.bigS == ServerKey(PRIME, srp.bigA, srp.v, Scrambler(srp.sha, UNPADDED, srp.bigA, srp.bigB), srp.b)
  {
    hide PowMod, Power, AsByteArray, SetBinary, HashedInHalves, MixedOf, Mixed, Scrambler, ServerKey, StrongKey;
    hide ProofDigest, Zeros;
    accepted := srp.CalculateSessionKey(clientA);
    if accepted {
      srp.HashSessionKey();
      srp.CalculateProof(username);
      accepted := srp.Proof(clientM);
    }
  }

  lemma GeneratorInverse()
    ensures Same(GENERATOR * 0x621147b13dea16f862e98a87f8bb5df22a4a5a4164641ef8e806a6608be393cc, 1, PRIME)
  {
    SameShift(1, 5, PRIME);
  }

  lemma HonestNumbers(e: nat)
    ensures PowMod(GENERATOR, e, PRIME) != 0
  {
    hide PowMod, Power;
    GeneratorInverse();
    PowerNeverZero(PRIME, GENERATOR, 0x621147b13dea16f862e98a87f8bb5df22a4a5a4164641ef8e806a6608be393cc, e);
  }

  /** Verifier and salt texts as an account creation stores them, with `salt` the random salt drawn. */
  method CreateAccount(sha: Sha, ri: string, salt: nat) returns (ok: bool, verifier: string, stored: string)
    ensures ok <==> salt != 0
    ensures ok ==>
              var x := PrivateKey(sha, UNPADDED, salt, IdentityDigest(ri));
              SetHexStr(verifier) == Some(PowMod(GENERATOR, x, PRIME)) && SetHexStr(stored) == Some(salt)
  {
    hide PowMod, SetHexStr, AsHexStr, PrivateKey, IdentityDigest;
    HexRoundTrip(salt);
    var srp := new Server(sha);
    ok := srp.CalculateVerifier(ri, AsHexStr(salt));
    verifier, stored := AsHexStr(srp.v), AsHexStr(srp.s);
    HexRoundTrip(srp.v);
  }

  /**
   An account made with any identity and salt, then a login by a client that knows the identity, for every choice of
   secrets.  The server ends with the key of the client that hashes numbers unpadded, and lets in exactly the client
   whose digest is that client's; in particular that client itself.
   */
  method AccountLogsIn(sha: Sha, w: Widths, username: seq<byte>, identity: Digest, salt: nat, b: nat, a: nat)
      returns (accepted: bool, serverKey: nat, bigB: nat)
    ensures accepted <==>
              && salt != 0
              && ClientAnswer(sha, w, username, identity, salt, bigB, a).proof
                 == ClientAnswer(sha, UNPADDED, username, identity, salt, bigB, a).proof
    ensures salt != 0 ==> serverKey == ClientAnswer(sha, UNPADDED, username, identity, salt, bigB, a).key
    ensures salt != 0 ==>
              var verifier := PowMod(GENERATOR, PrivateKey(sha, UNPADDED, salt, identity), PRIME);
              bigB == PublicEphemeral(PRIME, GENERATOR, verifier, b) < PRIME
  {
    hide PowMod, SetHexStr, PrivateKey, IdentityDigest, Scrambler, StrongKey, ProofDigest, AsByteArray, SetBinary;
    hide ServerKey, ClientKey, PublicEphemeral;
    IdentityRestored(identity);
    serverKey, bigB := 0, 0;
    var verifier, stored;
    accepted, verifier, stored := CreateAccount(sha, HexText(Nibbles(identity)), salt);
    if !accepted { return; }
    ghost var x := PrivateKey(sha, UNPADDED, salt, identity);
    HonestNumbers(x);
    HonestNumbers(a);
    var srp := new Server(sha);
    var ok := LogonChallenge(srp, verifier, stored, b);
    bigB := srp.bigB;
    var answer := ClientAnswer(sha, w, username, identity, salt, bigB, a);
    NumberRoundTrip(answer.bigA, 32);
    Reduced(GENERATOR, a);
    KeyAgreement(PRIME, GENERATOR, x, a, b, Scrambler(sha, UNPADDED, answer.bigA, bigB));
    accepted := LogonProof(srp, username, AsByteArray(answer.bigA, 32), answer.proof);
    ghost var expected := ClientAnswer(sha, UNPADDED, username, identity, salt, bigB, a);
    assert (expected.proof + Zeros(20))[..20] == expected.proof;
    serverKey := srp.k;
  }

  /** None of the numbers hashed has a high zero byte in its field. */
  ghost predicate FillsFields(s: nat, bigA: nat, bigB: nat, key: nat) {
    Power(256, 31) <= s && Power(256, 31) <= bigA && Power(256, 31) <= bigB && Power(256, 39) <= key
  }

  /** A number without a high zero byte has one encoding, padded or not; any other has a shorter one. */
  lemma PaddingIdle(n: nat, width: nat)
    requires width > 1 && n < Power(256, width)
    ensures |AsByteArray(n, width)| == width && |AsByteArray(n, 0)| <= width
    ensures Power(256, width - 1) <= n <==> |AsByteArray(n, 0)| == width
    ensures Power(256, width - 1) <= n ==> AsByteArray(n, 0) == AsByteArray(n, width)
  {
    hide Power;
    ByteLength(n, width);
    ByteLength(n, width - 1);
  }

  lemma KeyFits(sha: Sha, bigS: nat)
    ensures StrongKey(sha, bigS) < Power(256, 40)
  {
    var t := AsByteArray(bigS, 32);
    var bytes: seq<byte> := Interleaved(sha(Every2nd(t, 0, 16)), sha(Every2nd(t, 1, 16)));
    hide AsByteArray, SetBinary, Power;
    BytesRoundTrip(bytes);
    ByteLength(SetBinary(bytes), 40);
  }

  /**
   A client that hashes fixed-width fields is let in when no number has a high zero byte, and, as long as the hash
   does not collide on the two proof messages, only then.
   */
  lemma FixedWidthLetsIn(sha: Sha, username: seq<byte>, identity: Digest, s: nat, bigB: nat, a: nat)
    requires s < Power(256, 32) && bigB < PRIME
    ensures var ours := ClientAnswer(sha, UNPADDED, username, identity, s, bigB, a);
            var theirs := ClientAnswer(sha, FIXED, username, identity, s, bigB, a);
            var expected := ProofMessage(sha, UNPADDED, username, s, ours.bigA, bigB, ours.key);
            var sent := ProofMessage(sha, FIXED, username, s, theirs.bigA, bigB, theirs.key);
            && (FillsFields(s, ours.bigA, bigB, ours.key) ==> theirs == ours)
            && ((sha(sent) == sha(expected) ==> sent == expected) ==>
                  (theirs.proof == ours.proof <==> FillsFields(s, ours.bigA, bigB, ours.key)))
  {
    hide Power, AsByteArray, PowMod, StrongKey, ClientKey, SetBinary, Mixed;
    var ours := ClientAnswer(sha, UNPADDED, username, identity, s, bigB, a);
    var theirs := ClientAnswer(sha, FIXED, username, identity, s, bigB, a);
    PrimeFits();
    Reduced(GENERATOR, a);
    AnswerKeyFits(sha, UNPADDED, username, identity, s, bigB, a);
    AnswerKeyFits(sha, FIXED, username, identity, s, bigB, a);
    PaddingIdle(s, 32);
    PaddingIdle(ours.bigA, 32);
    PaddingIdle(bigB, 32);
    PaddingIdle(ours.key, 40);
    PaddingIdle(theirs.key, 40);
    MessageSize(sha, UNPADDED, username, s, ours.bigA, bigB, ours.key);
    MessageSize(sha, FIXED, username, s, theirs.bigA, bigB, theirs.key);
    if FillsFields(s, ours.bigA, bigB, ours.key) {
      assert PrivateKey(sha, FIXED, s, identity) == PrivateKey(sha, UNPADDED, s, identity);
      assert Scrambler(sha, FIXED, ours.bigA, bigB) == Scrambler(sha, UNPADDED, ours.bigA, bigB);
      assert theirs.key == ours.key;
    }
  }

  lemma MessageSize(sha: Sha, w: Widths, username: seq<byte>, s: nat, bigA: nat, bigB: nat, k: nat)
    ensures |ProofMessage(sha, w, username, s, bigA, bigB, k)| == 40 + |AsByteArray(s, w.salt)|
              + |AsByteArray(bigA, w.public)| + |AsByteArray(bigB, w.public)| + |AsByteArray(k, w.key)|
  {
    hide AsByteArray;
  }

  lemma AnswerKeyFits(sha: Sha, w: Widths, username: seq<byte>, identity: Digest, s: nat, bigB: nat, a: nat)
    ensures ClientAnswer(sha, w, username, identity, s, bigB, a).key < Power(256, 40)
  {
    hide Power, AsByteArray, PowMod, StrongKey, ClientKey, SetBinary, ProofDigest;
    var x := PrivateKey(sha, w, s, identity);
    var bigA := PowMod(GENERATOR, a, PRIME);
    KeyFits(sha, ClientKey(PRIME, GENERATOR, bigB, x, a, Scrambler(sha, w, bigA, bigB)));
  }

  lemma Reduced(g: nat, e: nat)
    ensures PowMod(g, e, PRIME) < PRIME
  {
  }

  /**
   The challenge message sends the salt unpadded in a field meant to be 32 bytes wide.  It is that wide exactly
   for salts without a high zero byte.
   */
  lemma SaltFillsField(salt: nat)
    ensures |AsByteArray(salt, 0)| == 32 <==> Power(256, 31) <= salt < Power(256, 32)
    ensures |AsByteArray(salt, 0)| <= 32 <==> salt < Power(256, 32)
  {
    ByteLength(salt, 31);
    ByteLength(salt, 32);
  }
}
