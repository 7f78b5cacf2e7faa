/** The nonce search over many rounds, including what happens after 64-bit wrap-around. */
module Mining {
  import opened Ledger
  import opened Registry
  import opened Hashing
  import opened NodeModel
  import opened NodeSafety

  /** Round `r` of an undisturbed search tries the nonces number 1024 r + 1 to 1024 (r + 1). */
  ghost predicate RoundHits(H: Sha, txs: seq<Transaction>, r: nat)
    requires |txs| == TXS_PER_BLOCK
  {
    FirstHit(H, txs, MAGIC_TRIES * r, MAGIC_TRIES * (r + 1)).Some?
  }

  ghost predicate Solvable(H: Sha, txs: seq<Transaction>)
    requires |txs| == TXS_PER_BLOCK
  {
    exists m :: 0 <= m < WORD64 && Meets(H, txs, m)
  }

  lemma RoundOfNonce(H: Sha, txs: seq<Transaction>, m: nat) returns (r: nat)
    requires |txs| == TXS_PER_BLOCK && m < WORD64 && Meets(H, txs, m)
    ensures r < WORD64 / MAGIC_TRIES && RoundHits(H, txs, r)
  {
    var k: nat := if m == 0 then WORD64 else m;
    assert Nonce(k) == m by {
      if m == 0 {
        assert Nonce(WORD64) == Nonce(0);
      }
    }
    r := (k - 1) / MAGIC_TRIES;
    assert MAGIC_TRIES * r < k <= MAGIC_TRIES * (r + 1);
  }

  /** The search ends exactly for the blocks that have a solution among the 64-bit words, and
      then within 2^54 rounds: after wrap-around the same words come again. */
  lemma SearchEndsIffSolvable(H: Sha, txs: seq<Transaction>)
    requires |txs| == TXS_PER_BLOCK
    ensures (exists r :: 0 <= r && RoundHits(H, txs, r)) <==> Solvable(H, txs)
    ensures Solvable(H, txs) ==> exists r :: 0 <= r < WORD64 / MAGIC_TRIES && RoundHits(H, txs, r)
  {
    if r :| 0 <= r && RoundHits(H, txs, r) {
      var k := FirstHit(H, txs, MAGIC_TRIES * r, MAGIC_TRIES * (r + 1)).value;
      assert Meets(H, txs, Nonce(k));
    }
    if Solvable(H, txs) {
      var m :| 0 <= m < WORD64 && Meets(H, txs, m);
      var r := RoundOfNonce(H, txs, m);
    }
  }

  /** Two peers that mine the same votes, in the same order, publish one hash, whatever their
      heads are: the final hash covers neither the parent nor the votes' choices. */
  lemma SameKeysSameHash(H: Sha, a: Block, b: Block)
    requires Mined(H, a) && Mined(H, b)
    requires forall i :: 0 <= i < TXS_PER_BLOCK ==> Hashed(a.txs[i].key) == Hashed(b.txs[i].key)
    ensures a.finhash == b.finhash && a.magic == b.magic
  {
    assert Leaves(H, a.txs) == Leaves(H, b.txs);
    assert forall m: nat :: FinalHash(H, a.txs, m) == FinalHash(H, b.txs, m);
    assert forall m: nat :: Meets(H, a.txs, m) == Meets(H, b.txs, m);
    var j: nat :| FirstNonce(H, a, j);
    var k: nat :| FirstNonce(H, b, k);
    assert j == k by {
      assert NoneMeets(H, a.txs, j - 1) && NoneMeets(H, b.txs, k - 1);
    }
  }

  ghost predicate SameHashedKeys(s: seq<Transaction>, t: seq<Transaction>) {
    |s| == |t| && forall i :: 0 <= i < |s| ==> Hashed(s[i].key) == Hashed(t[i].key)
  }

  lemma MagicIsWord(H: Sha, b: Block)
    requires Mined(H, b)
    ensures b.magic < WORD64
  {
    var k: nat :| FirstNonce(H, b, k);
  }

  /** Mined blocks share a hash exactly when the hashed parts of their keys agree in order, unless
      a collision of the hash function is at hand. */
  lemma SharedHashIff(H: Sha, a: Block, b: Block) returns (collision: Option<(Bytes, Bytes)>)
    requires Mined(H, a) && Mined(H, b)
    ensures SameHashedKeys(a.txs, b.txs) ==> a.finhash == b.finhash
    ensures collision.None? && a.finhash == b.finhash ==> SameHashedKeys(a.txs, b.txs)
    ensures collision.Some? ==>
              collision.value.0 != collision.value.1 && H(collision.value.0) == H(collision.value.1)
  {
    collision := None;
    if SameHashedKeys(a.txs, b.txs) {
      SameKeysSameHash(H, a, b);
    } else if a.finhash == b.finhash {
      MagicIsWord(H, a);
      MagicIsWord(H, b);
      collision := FinalHashCommits(H, a.txs, a.magic, b.txs, b.magic);
    }
  }

  /** Some other recorded block was mined from the same hashed keys in the same order. */
  ghost predicate KeysTaken(reg: Reg, b: Block) {
    exists h :: h in reg && h != GENESIS_HASH && reg[h] != b && SameHashedKeys(reg[h].txs, b.txs)
  }

  /** When a publishing round respects "distinct blocks have distinct hashes": exactly when no other
      recorded block has the hashed keys of the working block, unless a collision is at hand. */
  lemma FreshHashIff(H: Sha, reg: Reg, n: Node) returns (collision: Option<(Bytes, Bytes)>)
    requires Sound(reg) && Honest(H, reg) && NodeInv(H, reg, n) && n.phase == Mine
    requires MineRound(H, n).sent.Some?
    ensures FreshHash(H, reg, n) ==> !KeysTaken(reg, MineRound(H, n).sent.value)
    ensures collision.None? && !FreshHash(H, reg, n) ==> KeysTaken(reg, MineRound(H, n).sent.value)
    ensures collision.Some? ==>
              collision.value.0 != collision.value.1 && H(collision.value.0) == H(collision.value.1)
  {
    var b := MineRound(H, n).sent.value;
    var k := FirstHit(H, n.work, n.tries, n.tries + MAGIC_TRIES).value;
    MinedBlockIsMined(H, n, k);
    assert b == MinedBlock(H, n, k);
    MinedStartsWithZero(H, b);
    collision := None;
    if KeysTaken(reg, b) {
      var h :| h in reg && h != GENESIS_HASH && reg[h] != b && SameHashedKeys(reg[h].txs, b.txs);
      assert LinkOk(reg, h);
      SameKeysSameHash(H, reg[h], b);
    }
    if !FreshHash(H, reg, n) {
      var c := reg[b.finhash];
      assert LinkOk(reg, b.finhash);
      collision := SharedHashIff(H, c, b);
      assert collision.None? ==> SameHashedKeys(c.txs, b.txs);
    }
  }
}
