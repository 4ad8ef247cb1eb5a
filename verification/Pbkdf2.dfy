/** The password hash: PBKDF2 with HMAC-SHA-256 as an arbitrary function that
    yields 32 octets, computed with in-place exclusive-or loops. */
module Pbkdf2 {

  newtype Octet = x: int | 0 <= x < 256

  type Octets = seq<Octet>

  function Power2(n: nat): nat {
    if n == 0 then 1 else 2 * Power2(n - 1)
  }

  /** The exclusive or of the low n bits, from the lowest on. */
  function XorBits(a: nat, b: nat, n: nat): (r: nat)
    ensures r < Power2(n)
  {
    if n == 0 then 0 else 2 * XorBits(a / 2, b / 2, n - 1) + (a + b) % 2
  }

  function Xor(a: Octet, b: Octet): Octet {
    assert Power2(4) == 16 && Power2(8) == 16 * Power2(4);
    XorBits(a as nat, b as nat, 8) as Octet
  }

  /** HMAC as a function of key and data. */
  type Mac = (Octets, Octets) -> Octets

  const HASH_LEN := 32

  ghost predicate Yields32(hmac: Mac) {
    forall key, data :: |hmac(key, data)| == HASH_LEN
  }

  // ---------------------------------------------------------------------
  // Section 5.2 of RFC 8018
  // ---------------------------------------------------------------------

  /** Go's conversion to a byte keeps the low eight bits. */
  function Low8(n: nat): Octet {
    (n % 256) as Octet
  }

  /** INT(i): four octets, most significant first. */
  function Int4(i: nat): (r: Octets)
    ensures |r| == 4
  {
    [Low8(i / 0x100_0000), Low8(i / 0x1_0000), Low8(i / 0x100), Low8(i)]
  }

  lemma ShiftAgain(i: nat)
    ensures i / 0x1_0000 == i / 0x100 / 0x100
    ensures i / 0x100_0000 == i / 0x1_0000 / 0x100
  {
  }

  lemma Digits(i: nat)
    requires i < 0x1_0000_0000
    ensures i / 0x100_0000 % 256 * 0x100_0000 + i / 0x1_0000 % 256 * 0x1_0000 + i / 0x100 % 256 * 0x100 + i % 256 == i
  {
    ShiftAgain(i);
    var a, b, c := i / 0x100, i / 0x1_0000, i / 0x100_0000;
    assert i == a * 0x100 + i % 0x100;
    assert a == b * 0x100 + a % 0x100;
    assert b == c * 0x100 + b % 0x100;
    assert c < 256;
  }

  /** For every block number RFC 8018 admits, the octets spell it out. */
  lemma Int4IsBigEndian(i: nat)
    requires i < 0x1_0000_0000
    ensures var b := Int4(i);
      (b[0] as int) * 0x100_0000 + (b[1] as int) * 0x1_0000 + (b[2] as int) * 0x100 + (b[3] as int) == i
  {
    Digits(i);
  }

  /** U_1 = PRF(P, S || INT(i)), U_j = PRF(P, U_{j-1}). */
  function U(hmac: Mac, password: Octets, salt: Octets, i: nat, j: nat): Octets
    requires j >= 1
  {
    if j == 1 then hmac(password, salt + Int4(i)) else hmac(password, U(hmac, password, salt, i, j - 1))
  }

  /** Octet k of T_i = U_1 xor ... xor U_c. */
  function XorOf(hmac: Mac, password: Octets, salt: Octets, i: nat, c: nat, k: nat): Octet
    requires c >= 1 && k < HASH_LEN && Yields32(hmac)
  {
    if c == 1 then U(hmac, password, salt, i, 1)[k]
    else Xor(XorOf(hmac, password, salt, i, c - 1, k), U(hmac, password, salt, i, c)[k])
  }

  ghost function T(hmac: Mac, password: Octets, salt: Octets, i: nat, c: nat): (r: Octets)
    requires c >= 1 && Yields32(hmac)
    ensures |r| == HASH_LEN
  {
    seq(HASH_LEN, k requires 0 <= k < HASH_LEN => XorOf(hmac, password, salt, i, c, k))
  }

  /** T_1 || ... || T_l */
  ghost function Blocks(hmac: Mac, password: Octets, salt: Octets, c: nat, l: nat): (r: Octets)
    requires c >= 1 && Yields32(hmac)
    ensures |r| == l * HASH_LEN
  {
    if l == 0 then [] else Blocks(hmac, password, salt, c, l - 1) + T(hmac, password, salt, l, c)
  }

  function BlockCount(keyLen: nat): nat {
    (keyLen + HASH_LEN - 1) / HASH_LEN
  }

  /** The first keyLen octets of the blocks. */
  ghost function DerivedKey(hmac: Mac, password: Octets, salt: Octets, c: nat, keyLen: nat): (r: Octets)
    requires c >= 1 && Yields32(hmac)
    ensures |r| == keyLen
  {
    Blocks(hmac, password, salt, c, BlockCount(keyLen))[..keyLen]
  }

  /** Octet n of any derived key is octet n mod 32 of block n / 32 + 1, whatever
      the length asked for. */
  lemma {:induction false} BlocksAt(hmac: Mac, password: Octets, salt: Octets, c: nat, l: nat, n: nat)
    requires c >= 1 && Yields32(hmac) && n < l * HASH_LEN
    ensures Blocks(hmac, password, salt, c, l)[n] == XorOf(hmac, password, salt, n / HASH_LEN + 1, c, n % HASH_LEN)
    decreases l
  {
    if n < (l - 1) * HASH_LEN {
      BlocksAt(hmac, password, salt, c, l - 1, n);
    } else {
      assert n / HASH_LEN == l - 1;
      assert n % HASH_LEN == n - (l - 1) * HASH_LEN;
    }
  }

  lemma DerivedKeyAt(hmac: Mac, password: Octets, salt: Octets, c: nat, keyLen: nat, n: nat)
    requires c >= 1 && Yields32(hmac) && n < keyLen
    ensures DerivedKey(hmac, password, salt, c, keyLen)[n]
      == XorOf(hmac, password, salt, n / HASH_LEN + 1, c, n % HASH_LEN)
  {
    BlocksAt(hmac, password, salt, c, BlockCount(keyLen), n);
  }

  /** A shorter key is a prefix of a longer one. */
  lemma ShorterIsPrefix(hmac: Mac, password: Octets, salt: Octets, c: nat, short: nat, long: nat)
    requires c >= 1 && Yields32(hmac) && short <= long
    ensures DerivedKey(hmac, password, salt, c, short) == DerivedKey(hmac, password, salt, c, long)[..short]
  {
    forall n | 0 <= n < short
      ensures DerivedKey(hmac, password, salt, c, short)[n] == DerivedKey(hmac, password, salt, c, long)[n]
    {
      DerivedKeyAt(hmac, password, salt, c, short, n);
      DerivedKeyAt(hmac, password, salt, c, long, n);
    }
  }

  /** The chain of the rounds: the first is the code of the salt with the block's number,
      each other the code of the one before. */
  ghost predicate IsChain(us: seq<Octets>, hmac: Mac, password: Octets, salt: Octets, number: Octets) {
    && us != [] && us[0] == hmac(password, salt + number)
    && forall j :: 0 < j < |us| ==> us[j] == hmac(password, us[j - 1])
  }

  predicate HasBit(x: nat, bit: nat) {
    if bit == 0 then x % 2 == 1 else HasBit(x / 2, bit - 1)
  }

  lemma XorSplits(a: nat, b: nat, n: nat)
    requires n > 0
    ensures XorBits(a, b, n) % 2 == (a + b) % 2 && XorBits(a, b, n) / 2 == XorBits(a / 2, b / 2, n - 1)
  {
    var rest := XorBits(a / 2, b / 2, n - 1);
    assert XorBits(a, b, n) == 2 * rest + (a + b) % 2;
  }

  lemma OddSum(a: nat, b: nat)
    ensures (a + b) % 2 == 1 <==> (a % 2 == 1) != (b % 2 == 1)
  {
  }

  lemma {:induction false} HasBitOfXor(a: nat, b: nat, n: nat, bit: nat)
    requires bit < n
    ensures HasBit(XorBits(a, b, n), bit) <==> HasBit(a, bit) != HasBit(b, bit)
    decreases n
  {
    XorSplits(a, b, n);
    if bit > 0 {
      HasBitOfXor(a / 2, b / 2, n - 1, bit - 1);
    } else {
      OddSum(a, b);
    }
  }

  /** The bits are all there is to a number. */
  lemma {:induction false} BitsTell(a: nat, b: nat, n: nat)
    requires a < Power2(n) && b < Power2(n) && forall bit: nat :: bit < n ==> HasBit(a, bit) == HasBit(b, bit)
    ensures a == b
    decreases n
  {
    if n > 0 {
      assert HasBit(a, 0) == HasBit(b, 0);
      forall bit: nat | bit < n - 1 ensures HasBit(a / 2, bit) == HasBit(b / 2, bit) {
        assert HasBit(a, bit + 1) == HasBit(b, bit + 1);
      }
      BitsTell(a / 2, b / 2, n - 1);
    }
  }

  /** In how many of the strings octet k has the bit. */
  ghost function HowOften(us: seq<Octets>, k: nat, bit: nat): nat
    requires forall u :: u in us ==> k < |u|
  {
    if us == [] then 0
    else HowOften(us[..|us| - 1], k, bit) + if HasBit(us[|us| - 1][k] as nat, bit) then 1 else 0
  }

  lemma {:induction false} ChainIsU(us: seq<Octets>, hmac: Mac, password: Octets, salt: Octets, i: nat, j: nat)
    requires IsChain(us, hmac, password, salt, Int4(i)) && 1 <= j <= |us|
    ensures U(hmac, password, salt, i, j) == us[j - 1]
    decreases j
  {
    if j > 1 {
      ChainIsU(us, hmac, password, salt, i, j - 1);
    }
  }

  lemma OneMoreRound(us: seq<Octets>, hmac: Mac, password: Octets, salt: Octets, i: nat, k: nat, bit: nat)
    requires IsChain(us, hmac, password, salt, Int4(i)) && Yields32(hmac) && k < HASH_LEN && bit < 8
    requires |us| > 1
    ensures var c := |us|;
      && U(hmac, password, salt, i, c) == us[c - 1] && |us[c - 1]| == HASH_LEN
      && (HasBit(XorOf(hmac, password, salt, i, c, k) as nat, bit)
        <==> HasBit(XorOf(hmac, password, salt, i, c - 1, k) as nat, bit) != HasBit(us[c - 1][k] as nat, bit))
  {
    ChainIsU(us, hmac, password, salt, i, |us|);
    HasBitOfXor(XorOf(hmac, password, salt, i, |us| - 1, k) as nat, us[|us| - 1][k] as nat, 8, bit);
  }

  lemma PrefixIsChain(us: seq<Octets>, hmac: Mac, password: Octets, salt: Octets, i: nat)
    requires IsChain(us, hmac, password, salt, Int4(i)) && |us| > 1
    ensures IsChain(us[..|us| - 1], hmac, password, salt, Int4(i))
  {
  }

  lemma Flipped(before: nat, last: bool, after: nat, was: bool, becomes: bool)
    requires after == before + if last then 1 else 0
    requires (was <==> before % 2 == 1) && (becomes <==> was != last)
    ensures becomes <==> after % 2 == 1
  {
  }

  lemma {:induction false} OddlyOften(us: seq<Octets>, hmac: Mac, password: Octets, salt: Octets, i: nat, k: nat, bit: nat)
    requires IsChain(us, hmac, password, salt, Int4(i)) && Yields32(hmac) && k < HASH_LEN && bit < 8
    requires forall u :: u in us ==> |u| == HASH_LEN
    ensures HasBit(XorOf(hmac, password, salt, i, |us|, k) as nat, bit) <==> HowOften(us, k, bit) % 2 == 1
    decreases |us|
  {
    var c := |us|;
    if c == 1 {
      ChainIsU(us, hmac, password, salt, i, 1);
      assert HowOften(us[..0], k, bit) == 0;
    } else {
      PrefixIsChain(us, hmac, password, salt, i);
      OddlyOften(us[..c - 1], hmac, password, salt, i, k, bit);
      OneMoreRound(us, hmac, password, salt, i, k, bit);
      Flipped(HowOften(us[..c - 1], k, bit), HasBit(us[c - 1][k] as nat, bit), HowOften(us, k, bit),
              HasBit(XorOf(hmac, password, salt, i, c - 1, k) as nat, bit),
              HasBit(XorOf(hmac, password, salt, i, c, k) as nat, bit));
    }
  }

  /** A bit of a block of the key is set exactly if an odd number of the rounds' codes have
      it set, whatever they are. */
  lemma BlockIsParity(us: seq<Octets>, hmac: Mac, password: Octets, salt: Octets, i: nat, k: nat, bit: nat)
    requires IsChain(us, hmac, password, salt, Int4(i)) && Yields32(hmac) && k < HASH_LEN && bit < 8
    ensures forall u :: u in us ==> |u| == HASH_LEN
    ensures HasBit(T(hmac, password, salt, i, |us|)[k] as nat, bit) <==> HowOften(us, k, bit) % 2 == 1
  {
    forall u | u in us ensures |u| == HASH_LEN {
      var j :| 0 <= j < |us| && us[j] == u;
      ChainIsU(us, hmac, password, salt, i, j + 1);
    }
    OddlyOften(us, hmac, password, salt, i, k, bit);
  }

  // ---------------------------------------------------------------------
  // The loops
  // ---------------------------------------------------------------------

  /** The loops run once for every iteration after the first, so anything below
      one counts as one. */
  function Rounds(iterations: int): nat {
    if iterations < 1 then 1 else iterations
  }

  method XorInto(t: array<Octet>, u: Octets)
    requires t.Length == |u|
    modifies t
    ensures forall k :: 0 <= k < t.Length ==> t[k] == Xor(old(t[k]), u[k])
  {
    for j := 0 to t.Length
      invariant forall k :: 0 <= k < j ==> t[k] == Xor(old(t[k]), u[k])
      invariant forall k :: j <= k < t.Length ==> t[k] == old(t[k])
    {
      t[j] := Xor(t[j], u[j]);
    }
  }

  method Block(hmac: Mac, password: Octets, salt: Octets, iterations: int, block: nat) returns (t: array<Octet>)
    requires Yields32(hmac)
    ensures fresh(t) && t[..] == T(hmac, password, salt, block, if iterations >= 1 then iterations else 1)
  {
    var u := hmac(password, salt + [Low8(block / 0x100_0000), Low8(block / 0x1_0000), Low8(block / 0x100), Low8(block)]);
    t := new Octet[|u|](k requires 0 <= k < |u| => u[k]);
    var i := 1;
    while i < iterations
      invariant 1 <= i <= Rounds(iterations)
      invariant t.Length == HASH_LEN
      invariant u == U(hmac, password, salt, block, i)
      invariant forall k :: 0 <= k < HASH_LEN ==> t[k] == XorOf(hmac, password, salt, block, i, k)
    {
      u := hmac(password, u);
      XorInto(t, u);
      i := i + 1;
    }
  }

  method Pbkdf2Sha256(hmac: Mac, password: Octets, salt: Octets, iterations: int, keyLen: nat) returns (key: Octets)
    requires Yields32(hmac)
    ensures key == DerivedKey(hmac, password, salt, if iterations >= 1 then iterations else 1, keyLen)
  {
    var dk: Octets := [];
    var blocks := (keyLen + HASH_LEN - 1) / HASH_LEN;
    var block := 1;
    while block <= blocks
      invariant 1 <= block <= blocks + 1
      invariant dk == Blocks(hmac, password, salt, Rounds(iterations), block - 1)
    {
      var t := Block(hmac, password, salt, iterations, block);
      dk := dk + t[..];
      block := block + 1;
    }
    key := dk[..keyLen];
  }

  /** A stored hash is the first block with at least one round. */
  method HashPassword(hmac: Mac, password: Octets, salt: Octets, iterations: int) returns (hash: Octets)
    requires Yields32(hmac)
    ensures hash == T(hmac, password, salt, 1, if iterations >= 1 then iterations else 1)
  {
    var rounds := iterations;
    if rounds < 1 {
      rounds := 1;
    }
    hash := Pbkdf2Sha256(hmac, password, salt, rounds, 32);
    forall n | 0 <= n < HASH_LEN ensures hash[n] == T(hmac, password, salt, 1, Rounds(iterations))[n] {
      DerivedKeyAt(hmac, password, salt, Rounds(iterations), HASH_LEN, n);
    }
  }
}
