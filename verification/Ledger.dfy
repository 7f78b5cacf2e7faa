/** Values shared by every part of the OneVote model: bytes, votes, blocks and chains,
    and what it means for no voter to appear twice on a chain. */
module Ledger {

  datatype Option<+T> = None | Some(value: T)

  type byte = b: int | 0 <= b < 256
  type Bytes = seq<byte>

  const DIGEST_SIZE: nat := 20
  const TXS_PER_BLOCK: nat := 8
  const MAGIC_TRIES: nat := 1024
  const TARGET_ZEROS: nat := 3
  const MAX_PEERS: nat := 10
  const WORD64: nat := 0x1_0000_0000_0000_0000

  /** A 20-byte hash. `same_hash` compares exactly these bytes. */
  type Digest = d: Bytes | |d| == 20 witness seq(20, _ => 0)

  /** SHA-1 is a parameter of the model: any total function into digests. */
  type Sha = Bytes -> Digest

  type Key = Bytes

  datatype Transaction = Transaction(key: Key, vote: Bytes, timestamp: real)

  /** `txs` is the filled part of `transaction_array`, so `max_ind` is `|txs|`. */
  datatype Block = Block(
    number: nat, prev: Digest, magic: nat, root: Digest,
    txs: seq<Transaction>, verifier: Bytes, finhash: Digest)

  const NO_DIGEST: Digest :=
    [0, 0, 0, 0, 0, 0, 0, 0, 0, 0, 0, 0, 0, 0, 0, 0, 0, 0, 0, 0]
  const DEFAULT_VERIFIER: Bytes := [97]

  /** "STARTINGBLOCK", padded to the 20 bytes that comparisons read. */
  const GENESIS_HASH: Digest :=
    [83, 84, 65, 82, 84, 73, 78, 71, 66, 76, 79, 67, 75, 0, 0, 0, 0, 0, 0, 0]

  const GENESIS: Block := Block(1, NO_DIGEST, 0, NO_DIGEST, [], DEFAULT_VERIFIER, GENESIS_HASH)

  // ----- keys of votes and of chains -----

  function Keys(txs: seq<Transaction>): set<Key> {
    set t | t in txs :: t.key
  }

  ghost predicate DistinctKeys(txs: seq<Transaction>) {
    forall i, j :: 0 <= i < j < |txs| ==> txs[i].key != txs[j].key
  }

  function ChainKeys(chain: seq<Block>): set<Key> {
    if chain == [] then {} else Keys(chain[0].txs) + ChainKeys(chain[1..])
  }

  /** The votes of a chain, in the order in which its blocks are listed. */
  function ChainTxs(chain: seq<Block>): seq<Transaction> {
    if chain == [] then [] else chain[0].txs + ChainTxs(chain[1..])
  }

  /** Every block brings keys that are new to the blocks below it. */
  ghost predicate UniqueKeys(chain: seq<Block>) {
    chain == [] ||
    (DistinctKeys(chain[0].txs) && Keys(chain[0].txs) !! ChainKeys(chain[1..]) && UniqueKeys(chain[1..]))
  }

  /** One vote per voter, said about positions: equal keys are the same vote of the same block. */
  ghost predicate NoKeyTwice(chain: seq<Block>) {
    forall i, j, i', j' ::
      0 <= i < |chain| && 0 <= i' < |chain| && 0 <= j < |chain[i].txs| && 0 <= j' < |chain[i'].txs| &&
      chain[i].txs[j].key == chain[i'].txs[j'].key
      ==> i == i' && j == j'
  }

  lemma KeysConcat(a: seq<Transaction>, b: seq<Transaction>)
    ensures Keys(a + b) == Keys(a) + Keys(b)
  {
    forall k | k in Keys(a) + Keys(b)
      ensures k in Keys(a + b)
    {
      var t :| (t in a || t in b) && t.key == k;
      assert t in a + b;
    }
  }

  lemma {:induction false} ChainKeysConcat(a: seq<Block>, b: seq<Block>)
    ensures ChainKeys(a + b) == ChainKeys(a) + ChainKeys(b)
  {
    if a == [] {
      assert a + b == b;
    } else {
      assert (a + b)[1..] == a[1..] + b;
      ChainKeysConcat(a[1..], b);
    }
  }

  lemma {:induction false} ChainTxsKeys(chain: seq<Block>)
    ensures Keys(ChainTxs(chain)) == ChainKeys(chain)
  {
    if chain != [] {
      ChainTxsKeys(chain[1..]);
      KeysConcat(chain[0].txs, ChainTxs(chain[1..]));
    }
  }

  lemma {:induction false} ChainTxsConcat(a: seq<Block>, b: seq<Block>)
    ensures ChainTxs(a + b) == ChainTxs(a) + ChainTxs(b)
  {
    if a == [] {
      assert a + b == b;
    } else {
      assert (a + b)[1..] == a[1..] + b;
      ChainTxsConcat(a[1..], b);
    }
  }

  lemma ChainTxsOne(b: Block)
    ensures ChainTxs([b]) == b.txs
  {
    assert ChainTxs([b][1..]) == [];
  }

  /** A chain's votes are block by block in list order: the votes before block `i` come first. */
  lemma ChainTxsAt(chain: seq<Block>, i: nat)
    requires i < |chain|
    ensures ChainTxs(chain) == ChainTxs(chain[..i]) + chain[i].txs + ChainTxs(chain[i + 1..])
  {
    var above, b, below := chain[..i], chain[i], chain[i + 1..];
    ChainTxsOne(b);
    ChainTxsConcat(above, [b]);
    ChainTxsConcat(above + [b], below);
    assert above + [b] + below == chain;
  }

  lemma {:induction false} UniqueKeysConcat(a: seq<Block>, b: seq<Block>)
    ensures UniqueKeys(a + b) <==> UniqueKeys(a) && UniqueKeys(b) && ChainKeys(a) !! ChainKeys(b)
  {
    if a == [] {
      assert a + b == b;
    } else {
      assert (a + b)[1..] == a[1..] + b;
      ChainKeysConcat(a[1..], b);
      UniqueKeysConcat(a[1..], b);
    }
  }

  lemma {:induction false} ChainKeysAt(chain: seq<Block>, k: Key)
    ensures k in ChainKeys(chain) <==> exists i :: 0 <= i < |chain| && k in Keys(chain[i].txs)
  {
    if chain != [] {
      var rest := chain[1..];
      ChainKeysAt(rest, k);
      if k in ChainKeys(rest) {
        var i :| 0 <= i < |rest| && k in Keys(rest[i].txs);
        assert rest[i] == chain[i + 1];
      }
      if i :| 0 <= i < |chain| && k in Keys(chain[i].txs) {
        if i > 0 {
          assert rest[i - 1] == chain[i];
        }
      }
    }
  }

  lemma {:induction false} InChainTxs(chain: seq<Block>, t: Transaction)
    ensures t in ChainTxs(chain) <==> exists i :: 0 <= i < |chain| && t in chain[i].txs
  {
    if chain != [] {
      var rest := chain[1..];
      InChainTxs(rest, t);
      if t in ChainTxs(rest) {
        var i :| 0 <= i < |rest| && t in rest[i].txs;
        assert rest[i] == chain[i + 1];
      }
      if i :| 0 < i < |chain| && t in chain[i].txs {
        assert rest[i - 1] == chain[i];
      }
    }
  }

  /** The recursive form used in proofs is the plain statement about positions. */
  lemma {:induction false} UniqueKeysIsNoKeyTwice(chain: seq<Block>)
    ensures UniqueKeys(chain) <==> NoKeyTwice(chain)
  {
    if chain != [] {
      var rest := chain[1..];
      UniqueKeysIsNoKeyTwice(rest);
      if UniqueKeys(chain) {
        UniqueGivesNoKeyTwice(chain);
      }
      if NoKeyTwice(chain) {
        NoKeyTwiceGivesUnique(chain);
      }
    }
  }

  lemma UniqueGivesNoKeyTwice(chain: seq<Block>)
    requires chain != [] && UniqueKeys(chain) && NoKeyTwice(chain[1..])
    ensures NoKeyTwice(chain)
  {
    var rest := chain[1..];
    forall i, j, i', j' |
      0 <= i < |chain| && 0 <= i' < |chain| && 0 <= j < |chain[i].txs| && 0 <= j' < |chain[i'].txs| &&
      chain[i].txs[j].key == chain[i'].txs[j'].key
      ensures i == i' && j == j'
    {
      var k := chain[i].txs[j].key;
      assert k in Keys(chain[i].txs) && k in Keys(chain[i'].txs);
      ChainKeysAt(rest, k);
      if i > 0 {
        assert rest[i - 1] == chain[i];
      }
      if i' > 0 {
        assert rest[i' - 1] == chain[i'];
      }
    }
  }

  lemma NoKeyTwiceGivesUnique(chain: seq<Block>)
    requires chain != [] && NoKeyTwice(chain) && (NoKeyTwice(chain[1..]) ==> UniqueKeys(chain[1..]))
    ensures UniqueKeys(chain)
  {
    var rest := chain[1..];
    assert NoKeyTwice(rest) by {
      assert forall i :: 0 <= i < |rest| ==> rest[i] == chain[i + 1];
    }
    forall k | k in Keys(chain[0].txs)
      ensures k !in ChainKeys(rest)
    {
      ChainKeysAt(rest, k);
      assert forall i :: 0 <= i < |rest| ==> rest[i] == chain[i + 1];
    }
  }
}
