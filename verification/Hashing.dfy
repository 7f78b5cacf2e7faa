/** The Merkle root, the final hash of a block, and the proof-of-work test. */
module Hashing {
  import opened Ledger

  // ----- powers of two -----

  ghost predicate IsPow2(n: nat) {
    n == 1 || (n > 0 && n % 2 == 0 && IsPow2(n / 2))
  }

  ghost function Log2(n: nat): nat
    requires IsPow2(n)
  {
    if n == 1 then 0 else 1 + Log2(n / 2)
  }

  // ----- Merkle tree -----

  /** Two digests side by side in one buffer. */
  function Join(a: Bytes, b: Bytes): Bytes {
    a + b
  }

  /** Reference definition: the balanced binary tree over the leaves. */
  ghost function TreeHash(H: Sha, leaves: seq<Digest>): Digest
    requires IsPow2(|leaves|)
    decreases |leaves|
  {
    if |leaves| == 1 then leaves[0]
    else
      var half := |leaves| / 2;
      H(Join(TreeHash(H, leaves[..half]), TreeHash(H, leaves[half..])))
  }

  /** One pass of the loop: hash neighbours in pairs. */
  ghost function PairUp(H: Sha, level: seq<Digest>): seq<Digest>
    requires |level| % 2 == 0
  {
    seq(|level| / 2, i requires 0 <= i < |level| / 2 => H(Join(level[2 * i], level[2 * i + 1])))
  }

  lemma PairUpSplits(H: Sha, level: seq<Digest>, q: nat)
    requires |level| % 2 == 0 && 2 * q <= |level|
    ensures PairUp(H, level)[..q] == PairUp(H, level[..2 * q])
    ensures PairUp(H, level)[q..] == PairUp(H, level[2 * q..])
  {
  }

  /** Collapsing the bottom level does not change the root. */
  lemma {:induction false} PairUpKeepsRoot(H: Sha, level: seq<Digest>)
    requires IsPow2(|level|) && |level| >= 2
    ensures TreeHash(H, PairUp(H, level)) == TreeHash(H, level)
    decreases |level|
  {
    var next := PairUp(H, level);
    var half := |level| / 2;
    if half == 1 {
      assert next == [H(Join(level[0], level[1]))];
      assert level[..1] == [level[0]] && level[1..] == [level[1]];
    } else {
      PairUpKeepsRoot(H, level[..half]);
      PairUpKeepsRoot(H, level[half..]);
      PairUpSplits(H, level, half / 2);
    }
  }

  /** An inner node hashes the left half's root followed by the right half's. */
  lemma TreeHashOfHalves(H: Sha, left: seq<Digest>, right: seq<Digest>)
    requires IsPow2(|left|) && |left| == |right|
    ensures IsPow2(|left + right|)
    ensures TreeHash(H, left + right) == H(TreeHash(H, left) + TreeHash(H, right))
  {
    var all := left + right;
    assert all[..|left|] == left && all[|left|..] == right;
  }

  lemma TreeHashOfTwo(H: Sha, a: Digest, b: Digest)
    ensures IsPow2(|[a, b]|) && TreeHash(H, [a, b]) == H(a + b)
  {
    TreeHashOfHalves(H, [a], [b]);
    assert [a] + [b] == [a, b];
  }

  /** The level-by-level loop of `calculate_merkle_root`. */
  method MerkleRoot(H: Sha, leaves: seq<Digest>) returns (root: Digest, levels: nat)
    requires IsPow2(|leaves|) && |leaves| >= 2
    ensures root == TreeHash(H, leaves)
    ensures levels == Log2(|leaves|)
  {
    var oldHashes := leaves;
    levels := 0;
    while true
      invariant IsPow2(|oldHashes|) && |oldHashes| >= 2
      invariant TreeHash(H, oldHashes) == TreeHash(H, leaves)
      invariant levels + Log2(|oldHashes|) == Log2(|leaves|)
      decreases |oldHashes|
    {
      var newHashes: seq<Digest> := [];
      var i := 0;
      while i < |oldHashes|
        invariant 0 <= i <= |oldHashes| && i % 2 == 0
        invariant newHashes == PairUp(H, oldHashes)[..i / 2]
      {
        newHashes := newHashes + [H(Join(oldHashes[i], oldHashes[i + 1]))];
        i := i + 2;
      }
      PairUpKeepsRoot(H, oldHashes);
      assert newHashes == PairUp(H, oldHashes);
      levels := levels + 1;
      if |newHashes| == 1 {
        return newHashes[0], levels;
      }
      oldHashes := newHashes;
    }
  }

  /** Two different leaf sequences under one root give two different inputs with one hash.
      No property of the hash function is assumed. */
  ghost function TreeCollision(H: Sha, xs: seq<Digest>, ys: seq<Digest>): (r: Option<(Bytes, Bytes)>)
    requires |xs| == |ys| && IsPow2(|xs|)
    requires TreeHash(H, xs) == TreeHash(H, ys)
    ensures r.None? <==> xs == ys
    ensures r.Some? ==> r.value.0 != r.value.1 && H(r.value.0) == H(r.value.1)
    decreases |xs|
  {
    if |xs| == 1 then None
    else
      var half := |xs| / 2;
      var a, b := TreeHash(H, xs[..half]), TreeHash(H, xs[half..]);
      var c, d := TreeHash(H, ys[..half]), TreeHash(H, ys[half..]);
      assert xs == xs[..half] + xs[half..] && ys == ys[..half] + ys[half..];
      var ab, cd := Join(a, b), Join(c, d);
      if ab != cd then
        Some((ab, cd))
      else
        assert a == ab[..20] && c == cd[..20] && b == ab[20..] && d == cd[20..];
        var left := TreeCollision(H, xs[..half], ys[..half]);
        if left.Some? then left else TreeCollision(H, xs[half..], ys[half..])
  }

  // ----- hashes of a block -----

  /** `SHA1(key, PUBLIC_KEY_SIZE, ..)` reads the first 20 bytes of the voter's key. */
  function Hashed(key: Key): Bytes {
    if |key| >= 20 then key[..20] else key
  }

  function Leaf(H: Sha, t: Transaction): Digest {
    H(Hashed(t.key))
  }

  function Leaves(H: Sha, txs: seq<Transaction>): (r: seq<Digest>)
    ensures |r| == |txs|
    ensures forall i :: 0 <= i < |txs| ==> r[i] == Leaf(H, txs[i])
  {
    seq(|txs|, i requires 0 <= i < |txs| => Leaf(H, txs[i]))
  }

  ghost function Root(H: Sha, txs: seq<Transaction>): Digest
    requires |txs| == TXS_PER_BLOCK
  {
    assert IsPow2(8) by { assert IsPow2(4) by { assert IsPow2(2); } }
    TreeHash(H, Leaves(H, txs))
  }

  lemma TreeHashOfFour(H: Sha, a: Digest, b: Digest, c: Digest, d: Digest)
    ensures IsPow2(|[a, b, c, d]|) && TreeHash(H, [a, b, c, d]) == H(H(a + b) + H(c + d))
  {
    TreeHashOfTwo(H, a, b);
    TreeHashOfTwo(H, c, d);
    TreeHashOfHalves(H, [a, b], [c, d]);
    assert [a, b, c, d] == [a, b] + [c, d];
  }

  /** The root of a block, written out: `p[i]` are the first 20 bytes of the `i`-th voter's key. */
  lemma RootOfEight(H: Sha, txs: seq<Transaction>, p: seq<Bytes>)
    requires |txs| == |p| == TXS_PER_BLOCK
    requires forall i :: 0 <= i < TXS_PER_BLOCK ==> |p[i]| == 20 && p[i] <= txs[i].key
    ensures Root(H, txs) ==
            H(H(H(H(p[0]) + H(p[1])) + H(H(p[2]) + H(p[3]))) + H(H(H(p[4]) + H(p[5])) + H(H(p[6]) + H(p[7]))))
  {
    var d := Leaves(H, txs);
    forall i | 0 <= i < TXS_PER_BLOCK
      ensures d[i] == H(p[i])
    {
      assert Hashed(txs[i].key) == p[i];
    }
    TreeHashOfFour(H, d[0], d[1], d[2], d[3]);
    TreeHashOfFour(H, d[4], d[5], d[6], d[7]);
    TreeHashOfHalves(H, [d[0], d[1], d[2], d[3]], [d[4], d[5], d[6], d[7]]);
    assert d == [d[0], d[1], d[2], d[3]] + [d[4], d[5], d[6], d[7]];
  }

  function ByteOf(n: nat, i: nat): byte
    decreases i
  {
    if i == 0 then n % 256 else ByteOf(n / 256, i - 1)
  }

  /** The bytes of a word as `memcpy` copies them on a little-endian machine. */
  function LittleEndian(n: nat, width: nat): (r: Bytes)
    ensures |r| == width
  {
    seq(width, i requires i >= 0 => ByteOf(n, i))
  }

  function Pow256(k: nat): (r: nat)
    ensures r >= 1
  {
    if k == 0 then 1 else 256 * Pow256(k - 1)
  }

  ghost function FinalHash(H: Sha, txs: seq<Transaction>, magic: nat): Digest
    requires |txs| == TXS_PER_BLOCK
  {
    H(Join(Root(H, txs), LittleEndian(magic, 8)))
  }

  lemma {:induction false} LittleEndianInjective(m: nat, n: nat, width: nat)
    requires m < Pow256(width) && n < Pow256(width)
    requires forall i :: 0 <= i < width ==> ByteOf(m, i) == ByteOf(n, i)
    ensures m == n
    decreases width
  {
    if width > 0 {
      assert ByteOf(m, 0) == ByteOf(n, 0);
      forall i | 0 <= i < width - 1
        ensures ByteOf(m / 256, i) == ByteOf(n / 256, i)
      {
        assert ByteOf(m, i + 1) == ByteOf(n, i + 1);
      }
      LittleEndianInjective(m / 256, n / 256, width - 1);
    }
  }

  lemma Word64IsPow256()
    ensures Pow256(8) == WORD64
  {
    assert Pow256(2) == 65536;
    assert Pow256(4) == 65536 * 65536;
    assert Pow256(6) == 65536 * Pow256(4);
    assert Pow256(8) == 65536 * Pow256(6);
  }

  /** The number that bytes spell in memory, least significant first. */
  function LittleValue(w: Bytes): nat {
    if w == [] then 0 else w[0] + 256 * LittleValue(w[1..])
  }

  /** Said as a sum: the byte at position `i` counts `256^i`. */
  lemma {:induction false} LittleValueIsSum(w: Bytes, b: byte)
    ensures LittleValue(w + [b]) == LittleValue(w) + b * Pow256(|w|)
  {
    if w == [] {
      assert (w + [b])[1..] == [];
    } else {
      assert (w + [b])[1..] == w[1..] + [b];
      LittleValueIsSum(w[1..], b);
      MulOut(b, Pow256(|w| - 1));
    }
  }

  lemma MulOut(b: nat, p: nat)
    ensures 256 * (b * p) == b * (256 * p)
  {
  }

  lemma {:induction false} BytesOfValue(w: Bytes)
    ensures LittleValue(w) < Pow256(|w|)
    ensures forall i :: 0 <= i < |w| ==> ByteOf(LittleValue(w), i) == w[i]
  {
    if w != [] {
      BytesOfValue(w[1..]);
      var n := LittleValue(w);
      assert n / 256 == LittleValue(w[1..]) && n % 256 == w[0];
      forall i | 0 < i < |w|
        ensures ByteOf(n, i) == w[i]
      {
        assert ByteOf(n, i) == ByteOf(n / 256, i - 1) == w[1..][i - 1];
      }
    }
  }

  lemma {:induction false} ValueOfBytes(n: nat, width: nat)
    requires n < Pow256(width)
    ensures LittleValue(LittleEndian(n, width)) == n
    decreases width
  {
    if width > 0 {
      var w, rest := LittleEndian(n, width), LittleEndian(n / 256, width - 1);
      forall i | 0 <= i < width - 1
        ensures w[1..][i] == rest[i]
      {
        assert ByteOf(n, i + 1) == ByteOf(n / 256, i);
      }
      assert w[1..] == rest;
      ValueOfBytes(n / 256, width - 1);
    }
  }

  /** Every 64-bit word is the value of exactly one string of eight bytes. */
  lemma WordIsEightBytes(m: nat) returns (w: Bytes)
    requires m < WORD64
    ensures |w| == 8 && LittleValue(w) == m
    ensures forall v: Bytes :: |v| == 8 && LittleValue(v) == m ==> v == w
  {
    w := LittleEndian(m, 8);
    Word64IsPow256();
    ValueOfBytes(m, 8);
    forall v: Bytes | |v| == 8 && LittleValue(v) == m
      ensures v == w
    {
      BytesOfValue(v);
      BytesOfValue(w);
      assert forall i :: 0 <= i < 8 ==> v[i] == ByteOf(m, i) == w[i];
    }
  }

  /** The final hash covers the root and then the eight bytes of the nonce, least significant first. */
  lemma FinalHashBytes(H: Sha, txs: seq<Transaction>, w: Bytes)
    requires |txs| == TXS_PER_BLOCK && |w| == 8
    ensures LittleValue(w) < WORD64
    ensures FinalHash(H, txs, LittleValue(w)) == H(Root(H, txs) + w)
  {
    Word64IsPow256();
    BytesOfValue(w);
    var bytes := LittleEndian(LittleValue(w), 8);
    assert forall i :: 0 <= i < 8 ==> bytes[i] == w[i];
    assert bytes == w;
  }

  /** What a final hash commits to: the nonce and the hashed part of every key, in order,
      unless two distinct inputs of the hash function with one image are at hand. */
  lemma FinalHashCommits(H: Sha, s: seq<Transaction>, m: nat, t: seq<Transaction>, n: nat)
    returns (collision: Option<(Bytes, Bytes)>)
    requires |s| == |t| == TXS_PER_BLOCK && m < WORD64 && n < WORD64
    requires FinalHash(H, s, m) == FinalHash(H, t, n)
    ensures collision.Some? ==>
              collision.value.0 != collision.value.1 && H(collision.value.0) == H(collision.value.1)
    ensures collision.None? ==>
              m == n && forall i :: 0 <= i < TXS_PER_BLOCK ==> Hashed(s[i].key) == Hashed(t[i].key)
  {
    var a, b := Join(Root(H, s), LittleEndian(m, 8)), Join(Root(H, t), LittleEndian(n, 8));
    if a != b {
      return Some((a, b));
    }
    assert a[..20] == Root(H, s) && b[..20] == Root(H, t);
    assert a[20..] == LittleEndian(m, 8) && b[20..] == LittleEndian(n, 8);
    Word64IsPow256();
    assert forall i :: 0 <= i < 8 ==> LittleEndian(m, 8)[i] == ByteOf(m, i) && LittleEndian(n, 8)[i] == ByteOf(n, i);
    LittleEndianInjective(m, n, 8);
    collision := TreeCollision(H, Leaves(H, s), Leaves(H, t));
    if collision.None? {
      assert forall i :: 0 <= i < TXS_PER_BLOCK ==> Leaves(H, s)[i] == Leaves(H, t)[i];
      if i :| 0 <= i < TXS_PER_BLOCK && Hashed(s[i].key) != Hashed(t[i].key) {
        assert Leaves(H, s)[i] == Leaves(H, t)[i];
        collision := Some((Hashed(s[i].key), Hashed(t[i].key)));
      }
    }
  }

  // ----- proof of work -----

  function LeadingZeroDigits(buf: Bytes): nat {
    if buf == [] then 0
    else if buf[0] == 0 then 2 + LeadingZeroDigits(buf[1..])
    else if buf[0] / 16 == 0 then 1
    else 0
  }

  /** The loop of `leading_zeros`. */
  method LeadingZeros(buf: Bytes) returns (lz: nat)
    ensures lz == LeadingZeroDigits(buf)
  {
    lz := 0;
    var i := 0;
    while i < |buf|
      invariant 0 <= i <= |buf|
      invariant lz + LeadingZeroDigits(buf[i..]) == LeadingZeroDigits(buf)
    {
      if buf[i] == 0 {
        lz := lz + 2;
      } else if buf[i] / 16 == 0 {
        lz := lz + 1;
        break;
      } else {
        break;
      }
      i := i + 1;
    }
  }

  function Pow16(k: nat): (r: nat)
    ensures r >= 1
  {
    if k == 0 then 1 else 16 * Pow16(k - 1)
  }

  /** The number that the bytes spell, most significant first. */
  function BigEndian(buf: Bytes): nat {
    if buf == [] then 0 else BigEndian(buf[1..]) + buf[0] * Pow16(2 * (|buf| - 1))
  }

  lemma DigitTimes(d: nat, lo: nat, hi: nat, p: nat)
    requires lo <= d <= hi
    ensures lo * p <= d * p <= hi * p
  {
  }

  lemma {:induction false} TwoDigits(m: nat)
    ensures Pow16(m + 1) == 16 * Pow16(m) && Pow16(m + 2) == 256 * Pow16(m)
  {
    assert Pow16(m + 2) == 16 * Pow16(m + 1);
  }

  lemma {:induction false} BigEndianBound(buf: Bytes)
    ensures BigEndian(buf) < Pow16(2 * |buf|)
  {
    if buf != [] {
      BigEndianBound(buf[1..]);
      TwoDigits(2 * (|buf| - 1));
      DigitTimes(buf[0], 0, 255, Pow16(2 * (|buf| - 1)));
    }
  }

  lemma {:induction false} Pow16Monotone(a: nat, b: nat)
    requires a <= b
    ensures Pow16(a) <= Pow16(b)
    decreases b
  {
    if a < b {
      Pow16Monotone(a, b - 1);
    }
  }

  /** A non-zero top byte `d` above `m` lower digits worth `r` settles the comparison. */
  lemma TopByteDecides(d: nat, r: nat, m: nat, k: nat)
    requires 1 <= d < 256 && r < Pow16(m) && 1 <= k <= m + 2
    ensures r + d * Pow16(m) < Pow16(m + 2 - k) <==> d < 16 && k == 1
  {
    TwoDigits(m);
    if d >= 16 {
      DigitTimes(d, 16, 255, Pow16(m));
      Pow16Monotone(m + 2 - k, m + 1);
    } else {
      DigitTimes(d, 1, 15, Pow16(m));
      if k >= 2 {
        Pow16Monotone(m + 2 - k, m);
      }
    }
  }

  /** Counting zero digits is comparing the number with a power of sixteen. */
  lemma {:induction false} LeadingZerosIsBound(buf: Bytes, k: nat)
    requires k <= 2 * |buf|
    ensures LeadingZeroDigits(buf) >= k <==> BigEndian(buf) < Pow16(2 * |buf| - k)
    decreases |buf|
  {
    BigEndianBound(buf);
    if buf != [] && k > 0 {
      var m := 2 * (|buf| - 1);
      BigEndianBound(buf[1..]);
      if buf[0] != 0 {
        TopByteDecides(buf[0], BigEndian(buf[1..]), m, k);
      } else if k <= 2 {
        Pow16Monotone(m, m + 2 - k);
      } else {
        LeadingZerosIsBound(buf[1..], k - 2);
      }
    }
  }

  /** The proof-of-work test that mining applies to a nonce. */
  ghost predicate Meets(H: Sha, txs: seq<Transaction>, magic: nat)
    requires |txs| == TXS_PER_BLOCK
  {
    LeadingZeroDigits(FinalHash(H, txs, magic)) >= TARGET_ZEROS
  }

  /** The target, as a number: the 160-bit hash is below 16^37. */
  lemma MeetsIsNumericTarget(H: Sha, txs: seq<Transaction>, magic: nat)
    requires |txs| == TXS_PER_BLOCK
    ensures Meets(H, txs, magic) <==> BigEndian(FinalHash(H, txs, magic)) < Pow16(37)
  {
    LeadingZerosIsBound(FinalHash(H, txs, magic), TARGET_ZEROS);
  }
}
