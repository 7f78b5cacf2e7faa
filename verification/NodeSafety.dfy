/** Every phase of a node keeps its invariant, loses no voter, and moves the chain only upwards. */
module NodeSafety {
  import opened Ledger
  import opened Registry
  import opened Hashing
  import opened NodeModel

  ghost predicate Sound(reg: Reg) {
    Linked(reg) && OneVote(reg)
  }

  /** The chain stays as it is or its head gets a strictly larger number. */
  ghost predicate Climbs(n: Node, n': Node) {
    n'.blocks == n.blocks ||
    (n.blocks != [] && n'.blocks != [] && n'.blocks[0].number > n.blocks[0].number)
  }

  /** What every phase guarantees, given that blocks come from the registry. */
  ghost predicate StepKeeps(H: Sha, reg: Reg, n: Node, r: Result)
    requires Linked(reg)
  {
    && NodeInv(H, reg, r.node)
    && Known(n) <= Known(r.node)
    && Climbs(n, r.node)
    && (r.sent.Some? <==> r.node.blocks != n.blocks)
    && (r.sent.Some? ==> r.node.blocks != [] && r.sent.value == r.node.blocks[0] && r.sent.value.finhash != GENESIS_HASH)
  }

  lemma DropWorkKeeps(H: Sha, reg: Reg, n: Node)
    requires Linked(reg) && ChainInv(reg, n) && QueueInv(reg, n)
    ensures NodeInv(H, reg, DropWork(n).(phase := Take))
    ensures Known(n) <= Known(DropWork(n).(phase := Take))
    ensures DropWork(n).tq == n.tq + n.work && DropWork(n).work == []
  {
    KeysConcat(n.tq, n.work);
  }

  /** Appending a child of the head keeps the chain an ancestry and the index exact; the
      number that `add_block` writes into the block is the one it already carries. */
  lemma AddBlockKeepsChain(reg: Reg, n: Node, b: Block)
    requires Sound(reg) && ChainInv(reg, n)
    requires Holds(reg, b) && b.prev == n.blocks[0].finhash && b.finhash != GENESIS_HASH
    ensures AddBlock(n, b).blocks == [b] + n.blocks
    ensures ChainInv(reg, AddBlock(n, b))
    ensures b.number > n.blocks[0].number
  {
    ChildOfHead(reg, n, b);
    var m := AddBlock(n, b);
    assert m.blocks == [b] + n.blocks;
    assert m.blocks[1..] == n.blocks;
  }

  lemma PopBlockKeeps(H: Sha, reg: Reg, n: Node)
    requires Linked(reg) && NodeInv(H, reg, n) && n.bq != [] && n.phase == Head
    ensures Holds(reg, n.bq[0]) && n.bq[0].finhash != GENESIS_HASH
    ensures NodeInv(H, reg, n.(bq := n.bq[1..]))
  {
    assert n.bq[0] in n.bq;
    assert forall c :: c in n.bq[1..] ==> c in n.bq;
  }

  lemma HandleOk(H: Sha, reg: Reg, n: Node)
    requires Sound(reg) && NodeInv(H, reg, n) && n.phase == Head && n.bq != []
    requires n.bq[0].prev == n.blocks[0].finhash
    ensures CheckValidity(n.blocks, n.voted, n.bq[0]) == OK
    ensures StepKeeps(H, reg, n, HandleBlock(n))
  {
    var b := n.bq[0];
    var m := n.(bq := n.bq[1..]);
    PopBlockKeeps(H, reg, n);
    ChildOfHead(reg, n, b);
    AddBlockKeepsChain(reg, m, b);
    var m' := AddBlock(m, b);
    assert Known(n) <= Known(m');
    DropWorkKeeps(H, reg, m');
    assert HandleBlock(n) == Result(DropWork(m').(phase := Take), Some(b));
  }

  lemma StartWalk(H: Sha, reg: Reg, n: Node, b: Block)
    requires Linked(reg) && NodeInv(H, reg, n) && n.phase == Head
    requires Holds(reg, b) && b.number > n.blocks[0].number
    ensures NodeInv(H, reg, n.(phase := Walk(b, [], b)))
  {
    assert [] + Ancestry(reg, b.finhash) == Ancestry(reg, b.finhash);
  }

  /** Block receipt. A block on top of the head is always accepted: no honest block is ever
      turned away as `TRANSACTION_INVALID`. */
  lemma HandleBlockKeeps(H: Sha, reg: Reg, n: Node)
    requires Sound(reg) && NodeInv(H, reg, n)
    requires n.phase == Head && n.bq != []
    ensures StepKeeps(H, reg, n, HandleBlock(n))
    ensures n.bq[0].prev == n.blocks[0].finhash <==> CheckValidity(n.blocks, n.voted, n.bq[0]) == OK
  {
    var b := n.bq[0];
    if b.prev == n.blocks[0].finhash {
      HandleOk(H, reg, n);
    } else {
      PopBlockKeeps(H, reg, n);
      if b.number > n.blocks[0].number {
        StartWalk(H, reg, n.(bq := n.bq[1..]), b);
      }
    }
  }

  /** Where the walk stands, by height: every fetch costs one level. */
  lemma WalkHeight(reg: Reg, n: Node)
    requires Linked(reg) && WalkInv(reg, n) && n.phase.Walk?
    ensures |n.phase.toAdd| + n.phase.current.number == n.phase.target.number
  {
  }

  /** Genesis is on every chain, so a walk that still has to fetch is above it. */
  lemma FetchIsAboveGenesis(reg: Reg, n: Node)
    requires Linked(reg) && ChainInv(reg, n) && WalkInv(reg, n) && n.phase.Walk?
    requires !InChain(n.blocks, n.phase.current.finhash)
    ensures n.phase.current.finhash != GENESIS_HASH
    ensures n.phase.current.prev in reg && reg[n.phase.current.prev].number == n.phase.current.number - 1
    ensures |n.phase.toAdd| < n.phase.target.number - 1
  {
    assert n.blocks[|n.blocks| - 1] == GENESIS;
    var c := n.phase.current;
    assert LinkOk(reg, c.finhash);
    assert LinkOk(reg, c.prev);
    WalkHeight(reg, n);
  }

  /** The next block of the target's ancestry is exactly what the walk asks for. */
  lemma FetchWalks(reg: Reg, n: Node, parent: Block)
    requires Linked(reg) && ChainInv(reg, n) && WalkInv(reg, n) && n.phase.Walk?
    requires !InChain(n.blocks, n.phase.current.finhash)
    requires Holds(reg, parent) && parent.finhash == n.phase.current.prev
    ensures WalkInv(reg, Fetch(n, Some(parent))) && parent.number == n.phase.current.number - 1
  {
    FetchIsAboveGenesis(reg, n);
    var c := n.phase.current;
    var rest := Ancestry(reg, c.prev);
    assert Ancestry(reg, c.finhash) == [c] + rest;
    assert n.phase.toAdd + ([c] + rest) == (n.phase.toAdd + [c]) + rest;
  }

  lemma FetchKeeps(H: Sha, reg: Reg, n: Node, answer: Option<Block>)
    requires Sound(reg) && NodeInv(H, reg, n) && n.phase.Walk?
    requires !InChain(n.blocks, n.phase.current.finhash)
    requires answer.Some? ==> Holds(reg, answer.value) && answer.value.finhash == n.phase.current.prev
    ensures StepKeeps(H, reg, n, Result(Fetch(n, answer), None))
    ensures answer.Some? ==> Fetch(n, answer).phase.current.number == n.phase.current.number - 1
  {
    if answer.Some? {
      FetchWalks(reg, n, answer.value);
    }
  }

  /** A chain that is an ancestry meets a block's ancestry wherever it meets the block. */
  lemma MeetingPoint(reg: Reg, n: Node, h: Digest)
    requires Linked(reg) && ChainInv(reg, n) && h in reg && InChain(n.blocks, h)
    ensures var k := IndexOf(n.blocks, h);
            k < |n.blocks| && n.blocks[k..] == Ancestry(reg, h) && reg[h].number == |n.blocks| - k
  {
    var k := IndexOf(n.blocks, h);
    IndexOfIsFirst(n.blocks, h);
    AncestrySuffix(reg, n.blocks[0].finhash, k);
  }

  /** Rolling the index back over `evicted` and forward over `added` is exact precisely when
      no evicted key also sits in the kept part, unless the new branch brings it again: `erase`
      does not count. */
  lemma RollIndex(evicted: seq<Block>, kept: seq<Block>, added: seq<Block>)
    ensures ChainKeys(evicted + kept) - ChainKeys(evicted) + ChainKeys(added) == ChainKeys(added + kept)
            <==> ChainKeys(evicted) * ChainKeys(kept) <= ChainKeys(added)
  {
    ChainKeysConcat(evicted, kept);
    ChainKeysConcat(added, kept);
    var e, k, a := ChainKeys(evicted), ChainKeys(kept), ChainKeys(added);
    if e * k <= a {
      assert e + k - e + a == a + k;
    } else {
      var x :| x in e * k && x !in a;
      assert x in a + k && x !in e + k - e + a;
    }
  }

  /** The walk's blocks on top of the kept ones are the target's ancestry. */
  lemma ReorganiseChain(reg: Reg, n: Node)
    requires Sound(reg) && ChainInv(reg, n) && WalkInv(reg, n) && n.phase.Walk?
    requires InChain(n.blocks, n.phase.current.finhash)
    ensures var k := IndexOf(n.blocks, n.phase.current.finhash);
            && k < |n.blocks|
            && n.phase.toAdd != []
            && n.phase.toAdd + n.blocks[k..] == Ancestry(reg, n.phase.target.finhash)
            && UniqueKeys(n.blocks[..k] + n.blocks[k..])
  {
    var k := IndexOf(n.blocks, n.phase.current.finhash);
    MeetingPoint(reg, n, n.phase.current.finhash);
    WalkHeight(reg, n);
    assert OneVoteAt(reg, n.blocks[0].finhash);
    assert n.blocks == n.blocks[..k] + n.blocks[k..];
  }

  /** No voter is lost by a repair: evicted votes are back in the queue. */
  lemma ReorganiseKeepsVoters(n: Node, toAdd: seq<Block>, k: nat)
    requires k <= |n.blocks|
    ensures Keys(n.tq) + n.voted <= Keys(Reorganise(n, toAdd, k).tq) + Reorganise(n, toAdd, k).voted
  {
    KeysConcat(n.tq, ChainTxs(n.blocks[..k]));
    ChainTxsKeys(n.blocks[..k]);
  }

  /** On a chain without repeated voters the index is exact after any reorganisation. */
  lemma ReorganiseIndex(n: Node, toAdd: seq<Block>, k: nat)
    requires k <= |n.blocks| && n.voted == ChainKeys(n.blocks)
    requires UniqueKeys(n.blocks[..k] + n.blocks[k..])
    ensures Reorganise(n, toAdd, k).voted == ChainKeys(Reorganise(n, toAdd, k).blocks)
  {
    var evicted, kept := n.blocks[..k], n.blocks[k..];
    assert n.blocks == evicted + kept;
    UniqueKeysConcat(evicted, kept);
    RollIndex(evicted, kept, toAdd);
  }

  /** A repair moves the chain onto the target's whole ancestry, keeps everything from the
      common ancestor down, brings the index of voters along and loses no voter. */
  lemma ReorganiseIsRepair(reg: Reg, n: Node)
    requires Sound(reg) && ChainInv(reg, n) && WalkInv(reg, n) && n.phase.Walk?
    requires InChain(n.blocks, n.phase.current.finhash)
    ensures var k := IndexOf(n.blocks, n.phase.current.finhash);
            var m := Reorganise(n, n.phase.toAdd, k);
            && k < |n.blocks|
            && ChainInv(reg, m) && HashLinked(reg, m.blocks)
            && m.blocks == Ancestry(reg, n.phase.target.finhash) && m.blocks[0] == n.phase.target
            && m.blocks[|n.phase.toAdd|..] == n.blocks[k..]
            && m.blocks[0].number > n.blocks[0].number
  {
    var k := IndexOf(n.blocks, n.phase.current.finhash);
    var m := Reorganise(n, n.phase.toAdd, k);
    assert k < |n.blocks| && m.blocks == Ancestry(reg, n.phase.target.finhash) && m.voted == ChainKeys(m.blocks) by {
      ReorganiseChain(reg, n);
      ReorganiseIndex(n, n.phase.toAdd, k);
    }
    assert HashLinked(reg, m.blocks) by {
      AncestryIsHashLinked(reg, n.phase.target.finhash);
    }
    assert m.blocks[|n.phase.toAdd|..] == n.blocks[k..];
  }

  lemma SpliceInv(H: Sha, reg: Reg, n: Node)
    requires Sound(reg) && NodeInv(H, reg, n) && n.phase.Walk?
    requires InChain(n.blocks, n.phase.current.finhash)
    ensures var n' := Splice(n).node;
            && NodeInv(H, reg, n') && n'.blocks == Ancestry(reg, n.phase.target.finhash)
            && n'.blocks[0] == n.phase.target && n'.blocks[0].number > n.blocks[0].number
  {
    var m := Reorganise(n, n.phase.toAdd, IndexOf(n.blocks, n.phase.current.finhash));
    ReorganiseIsRepair(reg, n);
    DropWorkKeeps(H, reg, m);
  }

  lemma SpliceKnown(n: Node)
    requires n.phase.Walk?
    ensures Known(n) <= Known(Splice(n).node)
  {
    var k := IndexOf(n.blocks, n.phase.current.finhash);
    var m := Reorganise(n, n.phase.toAdd, k);
    ReorganiseKeepsVoters(n, n.phase.toAdd, k);
    KeysConcat(m.tq, m.work);
  }

  lemma SpliceKeeps(H: Sha, reg: Reg, n: Node)
    requires Sound(reg) && NodeInv(H, reg, n) && n.phase.Walk?
    requires InChain(n.blocks, n.phase.current.finhash)
    ensures StepKeeps(H, reg, n, Splice(n))
    ensures Splice(n).node.blocks == Ancestry(reg, n.phase.target.finhash)
  {
    SpliceInv(H, reg, n);
    SpliceKnown(n);
    TargetIsAboveGenesis(reg, n);
  }

  lemma TargetIsAboveGenesis(reg: Reg, n: Node)
    requires Linked(reg) && ChainInv(reg, n) && WalkInv(reg, n) && n.phase.Walk?
    ensures n.phase.target.finhash != GENESIS_HASH
  {
    assert LinkOk(reg, GENESIS_HASH);
    HeadNumber(reg, n);
  }

  lemma TakeTxKeeps(H: Sha, reg: Reg, n: Node)
    requires Sound(reg) && NodeInv(H, reg, n)
    requires n.phase == Take && (n.quotafull || n.tq != [])
    ensures StepKeeps(H, reg, n, Result(TakeTx(n), None))
    ensures !n.quotafull ==> TakeTx(n).tq == n.tq[1..] && TakeTx(n).work == n.work + if FrontIsRepeat(n) then [] else [n.tq[0]]
  {
    TakesFront(n);
    if !n.quotafull {
      var t, rest := n.tq[0], n.tq[1..];
      assert n.tq == [t] + rest;
      KeysConcat([t], rest);
      assert Keys([t]) == {t.key} by {
        assert t in [t];
      }
      if t.key !in n.voted && t.key !in Keys(n.work) {
        KeysConcat(n.work, [t]);
        assert forall i :: 0 <= i < |n.work| ==> n.work[i].key in Keys(n.work);
      }
    }
  }

  // ----- mining -----

  /** The nonce of `b` is the first of 1, 2, 3, ... (as 64-bit words) that meets the target. */
  ghost predicate FirstNonce(H: Sha, b: Block, k: nat)
    requires |b.txs| == TXS_PER_BLOCK
  {
    k >= 1 && b.magic == Nonce(k) && Meets(H, b.txs, Nonce(k)) && NoneMeets(H, b.txs, k - 1)
  }

  /** The block carries the proof of work of its own votes. */
  ghost predicate Mined(H: Sha, b: Block) {
    && |b.txs| == TXS_PER_BLOCK
    && b.root == Root(H, b.txs) && b.root[0] != 0
    && b.finhash == FinalHash(H, b.txs, b.magic) && b.verifier == DEFAULT_VERIFIER
    && exists k :: FirstNonce(H, b, k)
  }

  ghost predicate Honest(H: Sha, reg: Reg) {
    forall h :: h in reg && h != GENESIS_HASH ==> Mined(H, reg[h])
  }

  /** Below 64-bit wrap-around the published nonce is the least one, counting from 1. */
  lemma LeastNonce(H: Sha, b: Block, k: nat)
    requires |b.txs| == TXS_PER_BLOCK && FirstNonce(H, b, k) && k < WORD64
    ensures Meets(H, b.txs, b.magic) && forall j :: 1 <= j < b.magic ==> !Meets(H, b.txs, j)
  {
    assert Nonce(k) == k;
    forall j | 1 <= j < k
      ensures !Meets(H, b.txs, j)
    {
      assert Nonce(j) == j;
    }
  }

  /** Three leading zero digits leave the first byte zero. */
  lemma MinedStartsWithZero(H: Sha, b: Block)
    requires Mined(H, b)
    ensures b.finhash[0] == 0 && b.finhash != GENESIS_HASH
  {
    var k :| FirstNonce(H, b, k);
    assert Meets(H, b.txs, b.magic);
    var d := b.finhash;
    assert d[0] != 0 ==> LeadingZeroDigits(d) <= 1;
  }

  /** "Two distinct blocks do not share a hash", asked of the block this round would publish. */
  ghost predicate FreshHash(H: Sha, reg: Reg, n: Node)
    requires n.phase == Mine && |n.work| == TXS_PER_BLOCK && n.blocks != []
  {
    var r := MineRound(H, n);
    r.sent.Some? && r.sent.value.finhash in reg ==> reg[r.sent.value.finhash] == r.sent.value
  }

  ghost function Record(reg: Reg, sent: Option<Block>): Reg {
    match sent
    case None => reg
    case Some(b) => reg[b.finhash := b]
  }

  /** A registry that grows by a block above an old one changes nothing for a node. */
  lemma NodeInvGrows(H: Sha, reg: Reg, b: Block, n: Node)
    requires Linked(reg) && NodeInv(H, reg, n)
    requires b.finhash !in reg && Linked(reg[b.finhash := b])
    ensures NodeInv(H, reg[b.finhash := b], n)
  {
    AncestryGrows(reg, b, n.blocks[0].finhash);
    if n.phase.Walk? {
      AncestryGrows(reg, b, n.phase.current.finhash);
      AncestryGrows(reg, b, n.phase.target.finhash);
    }
  }

  lemma MinedBlockIsMined(H: Sha, n: Node, k: nat)
    requires WorkInv(H, n) && n.quotafull && n.blocks != []
    requires Root(H, n.work)[0] != 0
    requires FirstHit(H, n.work, n.tries, n.tries + MAGIC_TRIES) == Some(k)
    ensures Mined(H, MinedBlock(H, n, k))
  {
    var b := MinedBlock(H, n, k);
    assert FirstNonce(H, b, k) by {
      forall j | 1 <= j <= k - 1
        ensures !Meets(H, n.work, Nonce(j))
      {
      }
    }
  }

  /** Publishing: the new block's keys are new to the miner's chain, so the registry stays sound. */
  lemma RecordMined(H: Sha, reg: Reg, n: Node, b: Block)
    requires Sound(reg) && Honest(H, reg) && ChainInv(reg, n)
    requires Mined(H, b) && DistinctKeys(b.txs) && Keys(b.txs) !! n.voted
    requires b.prev == n.blocks[0].finhash && b.number == n.chainLength + 1
    requires b.finhash in reg ==> reg[b.finhash] == b
    ensures b.finhash != GENESIS_HASH
    ensures Sound(reg[b.finhash := b]) && Honest(H, reg[b.finhash := b])
    ensures ChainInv(reg[b.finhash := b], n)
  {
    MinedStartsWithZero(H, b);
    if b.finhash in reg {
      assert reg[b.finhash := b] == reg;
    } else {
      ExtendRegistry(reg, b);
      AncestryGrows(reg, b, n.blocks[0].finhash);
    }
  }

  lemma FreshWorkKeeps(H: Sha, reg: Reg, m: Node)
    requires Linked(reg) && ChainInv(reg, m) && QueueInv(reg, m)
    ensures NodeInv(H, reg, m.(work := [], tries := 0, quotafull := false, phase := Head))
  {
  }

  lemma PublishKeeps(H: Sha, reg: Reg, n: Node, k: nat)
    requires Sound(reg) && Honest(H, reg) && NodeInv(H, reg, n) && n.phase == Mine && FreshHash(H, reg, n)
    requires Root(H, n.work)[0] != 0 && FirstHit(H, n.work, n.tries, n.tries + MAGIC_TRIES) == Some(k)
    ensures var b := MinedBlock(H, n, k);
            var reg' := reg[b.finhash := b];
            && MineRound(H, n).sent == Some(b)
            && Sound(reg') && Honest(H, reg')
            && StepKeeps(H, reg', n, MineRound(H, n))
  {
    var b := MinedBlock(H, n, k);
    var reg' := reg[b.finhash := b];
    MinedBlockIsMined(H, n, k);
    assert AddBlock(n, b).blocks[0] == b;
    assert MineRound(H, n).sent == Some(b);
    RecordMined(H, reg, n, b);
    AddBlockKeepsChain(reg', n, b);
    assert QueueInv(reg', n);
    FreshWorkKeeps(H, reg', AddBlock(n, b));
    assert Known(n) <= Known(MineRound(H, n).node);
  }

  /** One round of up to 1024 nonces. */
  lemma MineRoundKeeps(H: Sha, reg: Reg, n: Node)
    requires Sound(reg) && Honest(H, reg) && NodeInv(H, reg, n) && n.phase == Mine && FreshHash(H, reg, n)
    ensures var r := MineRound(H, n);
            var reg' := Record(reg, r.sent);
            && Sound(reg') && Honest(H, reg')
            && StepKeeps(H, reg', n, r)
            && (r.sent.Some? ==> Mined(H, r.sent.value))
  {
    if Root(H, n.work)[0] != 0 {
      match FirstHit(H, n.work, n.tries, n.tries + MAGIC_TRIES)
      case None =>
        forall j | 1 <= j <= n.tries + MAGIC_TRIES
          ensures !Meets(H, n.work, Nonce(j))
        {
        }
      case Some(k) =>
        PublishKeeps(H, reg, n, k);
        MinedBlockIsMined(H, n, k);
    }
  }
}
