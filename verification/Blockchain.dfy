/** The `blockchain` class of a peer and the queue it shares with the processing thread. Each
    method is proved against the operations of `NodeModel`. */
module ChainStore {
  import opened Ledger
  import opened Registry
  import opened Hashing
  import opened NodeModel
  import opened NodeSafety

  /** A queue as one thread sees it inside its critical section. */
  class SynchronizedQueue<T> {
    var items: seq<T>

    constructor ()
      ensures items == []
    {
      items := [];
    }

    method Push(t: T)
      modifies this
      ensures items == old(items) + [t]
    {
      items := items + [t];
    }

    /** The value is `None` exactly where the source returns NULL. */
    method PopNonblocking() returns (r: Option<T>)
      modifies this
      ensures old(items) == [] ==> r == None && items == []
      ensures old(items) != [] ==> r == Some(old(items)[0]) && items == old(items)[1..]
    {
      if |items| == 0 {
        return None;
      }
      r := Some(items[0]);
      items := items[1..];
    }
  }

  /** The answers of the neighbours: to the `k`-th request, for the block with hash `h`. Other
      chains may change from one request to the next. */
  type Neighbours = (nat, Digest) -> Option<Block>

  ghost predicate Truthful(reg: Reg, fetch: Neighbours) {
    forall k, h :: fetch(k, h).Some? ==> Holds(reg, fetch(k, h).value) && fetch(k, h).value.finhash == h
  }

  /** All the fetching turns of one walk, as the node model takes them. */
  ghost function Walked(reg: Reg, n: Node, fetch: Neighbours, k: nat): (w: Node)
    requires Linked(reg) && Truthful(reg, fetch) && ChainInv(reg, n) && WalkInv(reg, n)
    ensures WalkInv(reg, w)
    ensures w.(phase := n.phase) == n
    ensures n.phase.Walk? ==> w.phase == Head || (w.phase.Walk? && w.phase.target == n.phase.target)
    ensures w.phase.Walk? ==> InChain(w.blocks, w.phase.current.finhash)
    decreases if n.phase.Walk? then n.phase.current.number else 0
  {
    if !n.phase.Walk? || InChain(n.blocks, n.phase.current.finhash) then n
    else
      var answer := fetch(k, n.phase.current.prev);
      if answer.None? then n.(phase := Head)
      else
        FetchWalks(reg, n, answer.value);
        Walked(reg, Fetch(n, answer), fetch, k + 1)
  }

  /** The chain operations of a whole repair: reorganise if the walk meets the chain, else nothing. */
  ghost function Repaired(reg: Reg, n: Node, fetch: Neighbours): Node
    requires Linked(reg) && Truthful(reg, fetch) && ChainInv(reg, n) && WalkInv(reg, n) && n.phase.Walk?
  {
    var w := Walked(reg, n, fetch, 0);
    if w.phase.Walk? then Reorganise(n, w.phase.toAdd, IndexOf(n.blocks, w.phase.current.finhash))
    else n
  }

  /** The same repair seen through the phases of the node: the walk's turns, then `Splice`. */
  lemma RepairedIsSplice(reg: Reg, n: Node, fetch: Neighbours)
    requires Linked(reg) && Truthful(reg, fetch) && ChainInv(reg, n) && WalkInv(reg, n) && n.phase.Walk?
    ensures var w := Walked(reg, n, fetch, 0);
            && (w.phase.Walk? ==> Splice(w).node == DropWork(Repaired(reg, n, fetch)).(phase := Take))
            && (!w.phase.Walk? ==> w == Repaired(reg, n, fetch).(phase := Head))
  {
  }

  lemma WalkEnds(reg: Reg, n: Node, fetch: Neighbours, k: nat)
    requires Linked(reg) && Truthful(reg, fetch) && ChainInv(reg, n) && WalkInv(reg, n)
    requires n.phase.Walk? && InChain(n.blocks, n.phase.current.finhash)
    ensures Walked(reg, n, fetch, k) == n
    ensures |n.phase.toAdd| < n.phase.target.number
  {
    WalkHeight(reg, n);
    assert LinkOk(reg, n.phase.current.finhash);
  }

  lemma WalkTurns(reg: Reg, n: Node, fetch: Neighbours, k: nat)
    requires Linked(reg) && Truthful(reg, fetch) && ChainInv(reg, n) && WalkInv(reg, n)
    requires n.phase.Walk? && !InChain(n.blocks, n.phase.current.finhash)
    ensures var answer := fetch(k, n.phase.current.prev);
            var n' := Fetch(n, answer);
            && WalkInv(reg, n')
            && Walked(reg, n, fetch, k) == (if answer.None? then n' else Walked(reg, n', fetch, k + 1))
            && (answer.Some? ==> answer.value.number < n.phase.current.number)
    ensures |n.phase.toAdd| + 1 < n.phase.target.number
  {
    var answer := fetch(k, n.phase.current.prev);
    if answer.Some? {
      FetchWalks(reg, n, answer.value);
    }
    FetchIsAboveGenesis(reg, n);
  }

  class Blockchain {
    var blocks: seq<Block>
    var voted: set<Key>
    var chainLength: nat
    const queue: SynchronizedQueue<Transaction>

    /** The chain part of a node; the other parts are given. */
    ghost function View(rest: Node): Node
      reads this, queue
    {
      rest.(blocks := blocks, voted := voted, chainLength := chainLength, tq := queue.items)
    }

    constructor (q: SynchronizedQueue<Transaction>)
      ensures queue == q
      ensures blocks == [GENESIS] && voted == {} && chainLength == 1
    {
      queue := q;
      blocks := [GENESIS];
      voted := {};
      chainLength := 1;
    }

    method VerifyTransactions(b: Block) returns (ok: bool)
      requires |b.txs| == TXS_PER_BLOCK
      ensures ok <==> Keys(b.txs) !! voted
    {
      for i := 0 to TXS_PER_BLOCK
        invariant forall j :: 0 <= j < i ==> b.txs[j].key !in voted
      {
        if b.txs[i].key in voted {
          assert b.txs[i].key in Keys(b.txs);
          return false;
        }
      }
      return true;
    }

    method GetBlockByNumber(number: nat) returns (r: Option<Block>)
      ensures r.Some? ==> r.value in blocks && r.value.number == number
      ensures r.None? ==> forall b :: b in blocks ==> b.number != number
    {
      for i := 0 to |blocks|
        invariant forall j :: 0 <= j < i ==> blocks[j].number != number
      {
        if blocks[i].number == number {
          return Some(blocks[i]);
        }
      }
      return None;
    }

    /** `check_if_block_in_chain`: the position of the block, or the end of the list. */
    method CheckIfBlockInChain(h: Digest) returns (k: nat)
      ensures k == IndexOf(blocks, h)
      ensures k < |blocks| <==> InChain(blocks, h)
    {
      k := 0;
      while k < |blocks|
        invariant k <= |blocks|
        invariant forall i :: 0 <= i < k ==> blocks[i].finhash != h
      {
        if blocks[k].finhash == h {
          break;
        }
        k := k + 1;
      }
      IndexOfUnique(blocks, h, k);
    }

    method GetBlockByHash(h: Digest) returns (r: Option<Block>)
      ensures r.Some? <==> InChain(blocks, h)
      ensures r.Some? ==> IndexOf(blocks, h) < |blocks| && r.value == blocks[IndexOf(blocks, h)]
    {
      var k := CheckIfBlockInChain(h);
      r := if k < |blocks| then Some(blocks[k]) else None;
    }

    method RemoveTransactionsFromSet(b: Block)
      requires |b.txs| == TXS_PER_BLOCK
      modifies this`voted
      ensures voted == old(voted) - Keys(b.txs)
    {
      for i := 0 to TXS_PER_BLOCK
        invariant voted == old(voted) - Keys(b.txs[..i])
      {
        voted := voted - {b.txs[i].key};
        OneMoreKey(b.txs, i);
      }
      assert b.txs[..TXS_PER_BLOCK] == b.txs;
    }

    method AddTransactionsToSet(b: Block)
      requires |b.txs| == TXS_PER_BLOCK
      modifies this`voted
      ensures voted == old(voted) + Keys(b.txs)
    {
      for i := 0 to TXS_PER_BLOCK
        invariant voted == old(voted) + Keys(b.txs[..i])
      {
        voted := voted + {b.txs[i].key};
        OneMoreKey(b.txs, i);
      }
      assert b.txs[..TXS_PER_BLOCK] == b.txs;
    }

    method AddTransactionsToQueue(b: Block)
      modifies queue
      ensures queue.items == old(queue.items) + b.txs
    {
      for i := 0 to |b.txs|
        invariant queue.items == old(queue.items) + b.txs[..i]
      {
        queue.Push(b.txs[i]);
        assert b.txs[..i + 1] == b.txs[..i] + [b.txs[i]];
      }
      assert b.txs[..|b.txs|] == b.txs;
    }

    method CheckBlockValidity(b: Block) returns (v: Validity)
      requires blocks != [] && |b.txs| == TXS_PER_BLOCK
      ensures v == CheckValidity(blocks, voted, b)
      ensures v == PrevBlockNonmatch <==> b.prev != blocks[0].finhash
      ensures v == TransactionInvalid <==> b.prev == blocks[0].finhash && exists i :: 0 <= i < |b.txs| && b.txs[i].key in voted
    {
      VerdictIff(blocks, voted, b);
      if b.prev != blocks[0].finhash {
        return PrevBlockNonmatch;
      }
      var ok := VerifyTransactions(b);
      if !ok {
        return TransactionInvalid;
      }
      return OK;
    }

    /** `add_block`; the block object that is sent on carries the number written here. */
    method Append(b: Block, ghost rest: Node) returns (added: Block)
      requires |b.txs| == TXS_PER_BLOCK
      modifies this
      ensures View(rest) == AddBlock(old(View(rest)), b)
      ensures blocks != [] && added == blocks[0]
    {
      chainLength := chainLength + 1;
      added := b.(number := chainLength);
      blocks := [added] + blocks;
      AddTransactionsToSet(b);
    }

    /** The first loop of `repair_blockchain`: collect blocks until one is on the chain. */
    method CollectBranch(b: Block, fetch: Neighbours, ghost reg: Reg, ghost rest: Node)
      returns (found: bool, toAdd: seq<Block>, k: nat, fetches: nat)
      requires Sound(reg) && Truthful(reg, fetch)
      requires rest.phase == Walk(b, [], b) && ChainInv(reg, View(rest)) && WalkInv(reg, View(rest))
      ensures var w := Walked(reg, View(rest), fetch, 0);
              && found == w.phase.Walk?
              && (found ==> w.phase.toAdd == toAdd && k == IndexOf(blocks, w.phase.current.finhash) && k < |blocks|)
      ensures fetches < b.number
    {
      toAdd := [];
      fetches := 0;
      var current := b;
      ghost var n := View(rest);
      while true
        invariant WalkInv(reg, n) && n.(phase := rest.phase) == View(rest)
        invariant n.phase == Walk(b, toAdd, current) && fetches == |toAdd|
        invariant Walked(reg, n, fetch, fetches) == Walked(reg, View(rest), fetch, 0)
        decreases current.number
      {
        k := CheckIfBlockInChain(current.finhash);
        if k < |blocks| {
          WalkEnds(reg, n, fetch, fetches);
          return true, toAdd, k, fetches;
        }
        WalkTurns(reg, n, fetch, fetches);
        var parent := fetch(fetches, current.prev);
        n := Fetch(n, parent);
        toAdd := toAdd + [current];
        fetches := fetches + 1;
        if parent == None {
          return false, toAdd, k, fetches;
        }
        current := parent.value;
        assert n.phase == Walk(b, toAdd, current);
      }
    }

    /** The second loop: pop the blocks above the meeting point. */
    method Evict(k: nat)
      requires k <= |blocks| && forall i :: 0 <= i < k ==> |blocks[i].txs| == TXS_PER_BLOCK
      modifies this, queue
      ensures blocks == old(blocks)[k..] && chainLength == old(chainLength)
      ensures voted == old(voted) - ChainKeys(old(blocks)[..k])
      ensures queue.items == old(queue.items) + ChainTxs(old(blocks)[..k])
    {
      var i := 0;
      while i < k
        invariant i <= k && blocks == old(blocks)[i..] && chainLength == old(chainLength)
        invariant voted == old(voted) - ChainKeys(old(blocks)[..i])
        invariant queue.items == old(queue.items) + ChainTxs(old(blocks)[..i])
      {
        var first := blocks[0];
        RemoveTransactionsFromSet(first);
        AddTransactionsToQueue(first);
        blocks := blocks[1..];
        OneMoreBlock(old(blocks), i);
        i := i + 1;
      }
    }

    /** The third loop: the index takes in the new branch. */
    method IndexBranch(toAdd: seq<Block>)
      requires forall i :: 0 <= i < |toAdd| ==> |toAdd[i].txs| == TXS_PER_BLOCK
      modifies this`voted
      ensures voted == old(voted) + ChainKeys(toAdd)
    {
      for i := 0 to |toAdd|
        invariant voted == old(voted) + ChainKeys(toAdd[..i])
      {
        AddTransactionsToSet(toAdd[i]);
        OneMoreBlock(toAdd, i);
      }
      assert toAdd[..|toAdd|] == toAdd;
    }

    /** Everything after the walk: evict, index, splice. */
    method SpliceBranch(toAdd: seq<Block>, k: nat, ghost rest: Node)
      requires k <= |blocks| && forall i :: 0 <= i < k ==> |blocks[i].txs| == TXS_PER_BLOCK
      requires forall i :: 0 <= i < |toAdd| ==> |toAdd[i].txs| == TXS_PER_BLOCK
      modifies this, queue
      ensures View(rest) == Reorganise(old(View(rest)), toAdd, k)
    {
      Evict(k);
      IndexBranch(toAdd);
      blocks := toAdd + blocks;
      chainLength := |blocks|;
    }

    /** `repair_blockchain`: a walk that meets the chain reorganises it, a walk that does not
        changes nothing. At most `b.number - 1` parents are fetched. */
    method RepairBlockchain(b: Block, fetch: Neighbours, ghost reg: Reg, ghost rest: Node)
      returns (ok: bool, fetches: nat)
      requires Sound(reg) && Truthful(reg, fetch)
      requires rest.phase == Walk(b, [], b) && ChainInv(reg, View(rest)) && WalkInv(reg, View(rest))
      modifies this, queue
      ensures fetches < b.number
      ensures ok == Walked(reg, old(View(rest)), fetch, 0).phase.Walk?
      ensures View(rest) == Repaired(reg, old(View(rest)), fetch)
    {
      ghost var n := View(rest);
      ghost var w := Walked(reg, n, fetch, 0);
      var toAdd, k;
      ok, toAdd, k, fetches := CollectBranch(b, fetch, reg, rest);
      if ok {
        RepairFacts(reg, w, toAdd, k);
        SpliceBranch(toAdd, k, rest);
      }
    }
  }

  lemma IndexOfUnique(blocks: seq<Block>, h: Digest, k: nat)
    requires k <= |blocks| && (k < |blocks| ==> blocks[k].finhash == h)
    requires forall i :: 0 <= i < k ==> blocks[i].finhash != h
    ensures k == IndexOf(blocks, h) && (k < |blocks| <==> InChain(blocks, h))
  {
    IndexOfIsFirst(blocks, h);
  }

  lemma OneMoreKey(txs: seq<Transaction>, i: nat)
    requires i < |txs|
    ensures Keys(txs[..i + 1]) == Keys(txs[..i]) + {txs[i].key}
  {
    assert txs[..i + 1] == txs[..i] + [txs[i]];
    KeysConcat(txs[..i], [txs[i]]);
    assert Keys([txs[i]]) == {txs[i].key} by {
      assert txs[i] in [txs[i]];
    }
  }

  lemma OneMoreBlock(chain: seq<Block>, i: nat)
    requires i < |chain|
    ensures ChainKeys(chain[..i + 1]) == ChainKeys(chain[..i]) + Keys(chain[i].txs)
    ensures ChainTxs(chain[..i + 1]) == ChainTxs(chain[..i]) + chain[i].txs
  {
    assert chain[..i + 1] == chain[..i] + [chain[i]];
    ChainKeysConcat(chain[..i], [chain[i]]);
    ChainTxsConcat(chain[..i], [chain[i]]);
    assert [chain[i]][1..] == [];
    assert ChainKeys([chain[i]]) == Keys(chain[i].txs);
    ChainTxsOne(chain[i]);
  }

  /** What a repair leaves behind: the target's whole ancestry, hash-linked, with an exact index. */
  lemma RepairFacts(reg: Reg, w: Node, toAdd: seq<Block>, k: nat)
    requires Sound(reg) && ChainInv(reg, w) && WalkInv(reg, w) && w.phase.Walk? && toAdd == w.phase.toAdd
    requires InChain(w.blocks, w.phase.current.finhash) && k == IndexOf(w.blocks, w.phase.current.finhash)
    ensures k < |w.blocks| && forall i :: 0 <= i < k ==> |w.blocks[i].txs| == TXS_PER_BLOCK
    ensures forall i :: 0 <= i < |toAdd| ==> |toAdd[i].txs| == TXS_PER_BLOCK
    ensures var m := Reorganise(w, toAdd, k);
            m.blocks == Ancestry(reg, w.phase.target.finhash) && HashLinked(reg, m.blocks) &&
            m.voted == ChainKeys(m.blocks)
  {
    FullAboveGenesis(reg, w.blocks, w.blocks[0].finhash);
    BranchIsFull(reg, w);
    ReorganiseIsRepair(reg, w);
  }

  /** Only genesis carries no votes. */
  lemma FullAboveGenesis(reg: Reg, chain: seq<Block>, h: Digest)
    requires Linked(reg) && h in reg && chain == Ancestry(reg, h)
    ensures forall i :: 0 <= i < |chain| - 1 ==> |chain[i].txs| == TXS_PER_BLOCK
  {
    AncestryIsHashLinked(reg, h);
    assert HashLinked(reg, chain);
    forall i | 0 <= i < |chain| - 1
      ensures |chain[i].txs| == TXS_PER_BLOCK
    {
      assert Holds(reg, chain[i]);
      assert LinkOk(reg, chain[i].finhash);
    }
  }

  lemma BranchIsFull(reg: Reg, w: Node)
    requires Linked(reg) && WalkInv(reg, w) && w.phase.Walk?
    ensures forall i :: 0 <= i < |w.phase.toAdd| ==> |w.phase.toAdd[i].txs| == TXS_PER_BLOCK
  {
    var rest := Ancestry(reg, w.phase.current.finhash);
    var chain := w.phase.toAdd + rest;
    FullAboveGenesis(reg, chain, w.phase.target.finhash);
    assert forall i :: 0 <= i < |w.phase.toAdd| ==> w.phase.toAdd[i] == chain[i];
  }
}
