/** The registry holds every block ever mined anywhere, by final hash. It is a history
    variable of the model: nodes never read it. The ancestry of a block in it is what a
    node's chain should be. */
module Registry {
  import opened Ledger

  type Reg = map<Digest, Block>

  /** One entry is well linked: stored under its own hash, and one above its parent. */
  ghost predicate LinkOk(reg: Reg, h: Digest)
    requires h in reg
  {
    && reg[h].finhash == h
    && (h == GENESIS_HASH ==> reg[h] == GENESIS)
    && (h != GENESIS_HASH ==>
          && |reg[h].txs| == TXS_PER_BLOCK
          && reg[h].prev in reg
          && reg[h].number == reg[reg[h].prev].number + 1)
    && reg[h].number >= 1
  }

  ghost predicate Linked(reg: Reg) {
    && GENESIS_HASH in reg
    && forall h {:trigger LinkOk(reg, h)} :: h in reg ==> LinkOk(reg, h)
  }

  ghost predicate Holds(reg: Reg, b: Block) {
    b.finhash in reg && reg[b.finhash] == b
  }

  /** The block stored under `h`, its parent, and so on down to genesis: newest first. */
  ghost function Ancestry(reg: Reg, h: Digest): (chain: seq<Block>)
    requires Linked(reg) && h in reg
    ensures chain != [] && |chain| == reg[h].number && chain[0] == reg[h] && chain[|chain| - 1] == GENESIS
    decreases reg[h].number
  {
    assert LinkOk(reg, h);
    assert LinkOk(reg, GENESIS_HASH);
    if h == GENESIS_HASH then [GENESIS]
    else [reg[h]] + Ancestry(reg, reg[h].prev)
  }

  ghost predicate OneVoteAt(reg: Reg, h: Digest)
    requires Linked(reg) && h in reg
  {
    UniqueKeys(Ancestry(reg, h))
  }

  /** No voter occurs twice in the history of any block. */
  ghost predicate OneVote(reg: Reg)
    requires Linked(reg)
  {
    forall h {:trigger OneVoteAt(reg, h)} :: h in reg ==> OneVoteAt(reg, h)
  }

  /** Said without recursion: newest first, each block names the next one's hash, genesis last. */
  ghost predicate HashLinked(reg: Reg, chain: seq<Block>) {
    && chain != []
    && chain[|chain| - 1] == GENESIS
    && (forall i :: 0 <= i < |chain| ==> Holds(reg, chain[i]))
    && (forall i :: 0 <= i < |chain| - 1 ==> chain[i].finhash != GENESIS_HASH)
    && (forall i, j :: 0 <= i < j < |chain| && j == i + 1 ==> chain[i].prev == chain[j].finhash)
  }

  lemma {:induction false} AncestryIsHashLinked(reg: Reg, h: Digest)
    requires Linked(reg) && h in reg
    ensures HashLinked(reg, Ancestry(reg, h))
    decreases reg[h].number
  {
    assert LinkOk(reg, h);
    assert LinkOk(reg, GENESIS_HASH);
    if h != GENESIS_HASH {
      var rest := Ancestry(reg, reg[h].prev);
      AncestryIsHashLinked(reg, reg[h].prev);
      assert LinkOk(reg, reg[h].prev);
      assert Ancestry(reg, h) == [reg[h]] + rest;
    }
  }

  /** A hash-linked list down to genesis can only be the ancestry of its head. */
  lemma {:induction false} HashLinkedIsAncestry(reg: Reg, chain: seq<Block>)
    requires Linked(reg) && HashLinked(reg, chain)
    ensures chain == Ancestry(reg, chain[0].finhash)
    decreases |chain|
  {
    var h := chain[0].finhash;
    assert Holds(reg, chain[0]);
    assert LinkOk(reg, h);
    if |chain| > 1 {
      assert HashLinked(reg, chain[1..]);
      HashLinkedIsAncestry(reg, chain[1..]);
      assert chain == [chain[0]] + chain[1..];
    }
  }

  /** Cutting an ancestry at any block leaves that block's own ancestry. */
  lemma {:induction false} AncestrySuffix(reg: Reg, h: Digest, k: nat)
    requires Linked(reg) && h in reg && k < |Ancestry(reg, h)|
    ensures Holds(reg, Ancestry(reg, h)[k])
    ensures Ancestry(reg, h)[k..] == Ancestry(reg, Ancestry(reg, h)[k].finhash)
    ensures Ancestry(reg, h)[k].number == reg[h].number - k
    decreases k
  {
    var chain := Ancestry(reg, h);
    assert LinkOk(reg, h);
    if k == 0 {
      assert chain[0..] == chain;
    } else {
      var rest := Ancestry(reg, reg[h].prev);
      assert chain == [reg[h]] + rest;
      AncestrySuffix(reg, reg[h].prev, k - 1);
      assert chain[k..] == rest[k - 1..];
    }
  }

  /** Mining adds a block above one that is present; older histories do not change. */
  lemma {:induction false} AncestryGrows(reg: Reg, b: Block, h: Digest)
    requires Linked(reg) && h in reg
    requires b.finhash !in reg && Linked(reg[b.finhash := b])
    ensures Ancestry(reg[b.finhash := b], h) == Ancestry(reg, h)
    decreases reg[h].number
  {
    var reg' := reg[b.finhash := b];
    assert LinkOk(reg, h);
    assert LinkOk(reg', h);
    if h != GENESIS_HASH {
      AncestryGrows(reg, b, reg[h].prev);
    }
  }

  /** A mined block whose keys are new to its parent's history keeps the registry sound. */
  lemma ExtendRegistry(reg: Reg, b: Block)
    requires Linked(reg) && OneVote(reg)
    requires b.finhash !in reg && b.finhash != GENESIS_HASH
    requires b.prev in reg && b.number == reg[b.prev].number + 1 && |b.txs| == TXS_PER_BLOCK
    requires DistinctKeys(b.txs) && Keys(b.txs) !! ChainKeys(Ancestry(reg, b.prev))
    ensures var reg' := reg[b.finhash := b];
            Linked(reg') && OneVote(reg') && Ancestry(reg', b.finhash) == [b] + Ancestry(reg, b.prev)
  {
    var reg' := reg[b.finhash := b];
    forall h | h in reg'
      ensures LinkOk(reg', h)
    {
      if h in reg {
        assert LinkOk(reg, h);
      } else {
        assert h == b.finhash;
      }
    }
    AncestryGrows(reg, b, b.prev);
    var above := [b] + Ancestry(reg, b.prev);
    assert Ancestry(reg', b.finhash) == above;
    assert above[1..] == Ancestry(reg, b.prev);
    forall h | h in reg'
      ensures OneVoteAt(reg', h)
    {
      if h in reg {
        assert OneVoteAt(reg, h);
        AncestryGrows(reg, b, h);
      } else {
        assert h == b.finhash;
        assert OneVoteAt(reg, b.prev);
      }
    }
  }
}
