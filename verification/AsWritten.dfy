/** Places where the code does not do what its comments say. The rest of the project models the
    stated intent; here the code is taken as it stands, with the exact extent of the difference. */
module AsWritten {
  import opened Ledger
  import opened Registry
  import opened Hashing
  import opened NodeModel
  import opened NodeSafety
  import opened Network
  import opened Guarantees
  import opened Mining
  import opened Codec

  // ----- `pop` returns `back()` and then drops the front -----

  function Pop<T>(q: seq<T>): (T, seq<T>)
    requires q != []
  {
    (q[|q| - 1], q[1..])
  }

  function Drain<T>(q: seq<T>): seq<T> {
    if q == [] then [] else [Pop(q).0] + Drain(Pop(q).1)
  }

  /** One pop is a FIFO pop exactly when the first and the last item are the same. */
  lemma PopIsFifoIff<T>(q: seq<T>)
    requires q != []
    ensures Pop(q) == (q[0], q[1..]) <==> q[0] == q[|q| - 1]
  {
  }

  /** Emptying a queue yields its last item over and over: all others are lost. */
  lemma {:induction false} DrainRepeatsLast<T>(q: seq<T>)
    requires q != []
    ensures |Drain(q)| == |q| && forall i :: 0 <= i < |q| ==> Drain(q)[i] == q[|q| - 1]
  {
    var rest := q[1..];
    if rest != [] {
      DrainRepeatsLast(rest);
    }
  }

  /** So what comes out is what went in only if all items are equal. */
  lemma DrainIsFifoIff<T>(q: seq<T>)
    ensures Drain(q) == q <==> forall i, j :: 0 <= i < |q| && 0 <= j < |q| ==> q[i] == q[j]
  {
    if q != [] {
      DrainRepeatsLast(q);
      if Drain(q) == q {
        assert forall i :: 0 <= i < |q| ==> q[i] == q[|q| - 1];
      }
    }
  }

  lemma TwoVotesOneLost()
    ensures Drain([1, 2]) == [2, 2]
  {
    assert [1, 2][1..] == [2];
    assert Drain([2]) == [2];
  }

  // ----- every Merkle leaf reads the first transaction -----

  function FirstLeaves(H: Sha, txs: seq<Transaction>): (r: seq<Digest>)
    requires |txs| == TXS_PER_BLOCK
    ensures |r| == TXS_PER_BLOCK
  {
    var d := Leaf(H, txs[0]);
    [d, d, d, d, d, d, d, d]
  }

  ghost function RootOfFirst(H: Sha, txs: seq<Transaction>): Digest
    requires |txs| == TXS_PER_BLOCK
  {
    assert IsPow2(8) by { assert IsPow2(4) by { assert IsPow2(2); } }
    TreeHash(H, FirstLeaves(H, txs))
  }

  /** The root as computed is the root as meant exactly when all eight leaves are one digest;
      the only other way is a collision of the hash function, which is then at hand. */
  lemma RootOfFirstIsRootIff(H: Sha, txs: seq<Transaction>) returns (collision: Option<(Bytes, Bytes)>)
    requires |txs| == TXS_PER_BLOCK
    ensures (forall i :: 0 <= i < TXS_PER_BLOCK ==> Leaf(H, txs[i]) == Leaf(H, txs[0])) ==>
              RootOfFirst(H, txs) == Root(H, txs)
    ensures collision.None? && RootOfFirst(H, txs) == Root(H, txs) ==>
              forall i :: 0 <= i < TXS_PER_BLOCK ==> Leaf(H, txs[i]) == Leaf(H, txs[0])
    ensures collision.Some? ==>
              collision.value.0 != collision.value.1 && H(collision.value.0) == H(collision.value.1)
  {
    var meant, read := Leaves(H, txs), FirstLeaves(H, txs);
    assert IsPow2(8) by { assert IsPow2(4) by { assert IsPow2(2); } }
    if forall i :: 0 <= i < TXS_PER_BLOCK ==> meant[i] == meant[0] {
      assert meant == read;
    }
    if RootOfFirst(H, txs) == Root(H, txs) {
      collision := TreeCollision(H, read, meant);
      if collision.None? {
        forall i | 0 <= i < TXS_PER_BLOCK
          ensures Leaf(H, txs[i]) == Leaf(H, txs[0])
        {
          assert read[i] == meant[i];
        }
      }
    } else {
      collision := None;
    }
  }

  /** The computed root says nothing about the other seven voters. */
  lemma RootOfFirstIgnoresTheRest(H: Sha, s: seq<Transaction>, t: seq<Transaction>)
    requires |s| == |t| == TXS_PER_BLOCK && Hashed(s[0].key) == Hashed(t[0].key)
    ensures RootOfFirst(H, s) == RootOfFirst(H, t)
  {
    assert Leaf(H, s[0]) == Leaf(H, t[0]);
    assert FirstLeaves(H, s) == FirstLeaves(H, t);
  }

  // ----- "two distinct blocks do not share a hash" -----

  // `Mining.SharedHashIff` says when two mined blocks share one.

  /** A concrete failing family: re-mining the same votes on any other parent. */
  lemma SameVotesOtherParent(H: Sha, a: Block, parent: Digest, number: nat)
    requires Mined(H, a) && (parent != a.prev || number != a.number)
    ensures var b := a.(prev := parent, number := number);
            Mined(H, b) && b != a && b.finhash == a.finhash
  {
    var b := a.(prev := parent, number := number);
    var k: nat :| FirstNonce(H, a, k);
    assert FirstNonce(H, b, k);
  }

  const PEM_PREFIX: Bytes :=
    [45, 45, 45, 45, 45, 66, 69, 71, 73, 78, 32, 80, 85, 66, 76, 73, 67, 32, 75, 69]

  predicate IsPem(key: Key) {
    PEM_PREFIX <= key
  }

  /** The voting booth sends whole PEM files as keys, and these agree in the 20 bytes that are
      hashed ("-----BEGIN PUBLIC KE"): with such keys every mined block has the same hash. */
  lemma PemBlocksShareOneHash(H: Sha, a: Block, b: Block)
    requires Mined(H, a) && Mined(H, b)
    requires forall t :: t in a.txs + b.txs ==> IsPem(t.key)
    ensures a.finhash == b.finhash
  {
    forall i | 0 <= i < TXS_PER_BLOCK
      ensures Hashed(a.txs[i].key) == Hashed(b.txs[i].key)
    {
      assert a.txs[i] in a.txs + b.txs && b.txs[i] in a.txs + b.txs;
      assert Hashed(a.txs[i].key) == PEM_PREFIX == Hashed(b.txs[i].key);
    }
    SameKeysSameHash(H, a, b);
  }

  /** Why the network results need the assumption. Two peers mine the same two lists of votes, A and B,
      in opposite orders: `a1` then `b1`, and `b2` then `a2`. Each chain is fine. A third peer that
      repairs onto `a2` may get `b1` for the parent's hash, and ends with the voters of A twice. */
  lemma SharedHashesBreakOneVote(H: Sha, a1: Block, b1: Block, b2: Block, a2: Block)
    requires Mined(H, a1) && Mined(H, b1) && Mined(H, b2) && Mined(H, a2)
    requires a1.prev == b2.prev == GENESIS_HASH && b1.prev == a1.finhash && a2.prev == b2.finhash
    requires a1.txs == a2.txs && b1.txs == b2.txs && a1.finhash != b1.finhash
    requires DistinctKeys(a1.txs) && DistinctKeys(b1.txs) && Keys(a1.txs) !! Keys(b1.txs)
    requires a2.number > 1
    ensures UniqueKeys([b1, a1, GENESIS]) && UniqueKeys([a2, b2, GENESIS])
    ensures b1.finhash == a2.prev && a1.finhash == b1.prev
    ensures var n := INITIAL.(phase := Walk(a2, [], a2));
            var w := Fetch(Fetch(Fetch(n, Some(b1)), Some(a1)), Some(GENESIS));
            && !InChain(n.blocks, a2.finhash) && !InChain(n.blocks, b1.finhash) && !InChain(n.blocks, a1.finhash)
            && w.phase.Walk? && InChain(w.blocks, w.phase.current.finhash)
            && Splice(w).node.blocks == [a2, b1, a1, GENESIS]
            && !NoKeyTwice(Splice(w).node.blocks)
  {
    SameKeysSameHash(H, b1, b2);
    MinedStartsWithZero(H, a1);
    MinedStartsWithZero(H, b1);
    MinedStartsWithZero(H, a2);
    ThreeBlocks(b1, a1);
    ThreeBlocks(a2, b2);
    var w := INITIAL.(phase := Walk(a2, [a2, b1, a1], GENESIS));
    assert [] + [a2] + [b1] + [a1] == [a2, b1, a1];
    assert Fetch(Fetch(Fetch(INITIAL.(phase := Walk(a2, [], a2)), Some(b1)), Some(a1)), Some(GENESIS)) == w;
    assert w.blocks[0].finhash == GENESIS_HASH;
    assert IndexOf(w.blocks, GENESIS_HASH) == 0;
    var chain := [a2, b1, a1, GENESIS];
    assert Splice(w).node.blocks == chain;
    assert chain[0].txs[0].key == chain[2].txs[0].key;
  }

  lemma ThreeBlocks(x: Block, y: Block)
    requires DistinctKeys(x.txs) && DistinctKeys(y.txs) && Keys(x.txs) !! Keys(y.txs)
    ensures UniqueKeys([x, y, GENESIS])
  {
    NoVotesNoKeys([GENESIS]);
    var two := [y, GENESIS];
    assert two[1..] == [GENESIS];
    assert ChainKeys(two) == Keys(y.txs);
    var three := [x, y, GENESIS];
    assert three[1..] == two;
  }

  // ----- the assertions in `get_parent_block_from_neighbor` -----

  predicate FetchAborts(b: Block) {
    b.prev[0] == 0 || b.finhash[0] == 0
  }

  /** They abort on every block that meets the target, so as written no walk of any run gets past
      its first fetch. */
  lemma EveryFetchAborts(H: Sha, size: nat, r: Behaviour, k: nat, i: nat)
    requires FromStart(H, size, r) && k < |r.states| && i < size
    ensures i < |r.states[k].nodes| &&
            var n := r.states[k].nodes[i];
            n.phase.Walk? && !InChain(n.blocks, n.phase.current.finhash) ==> FetchAborts(n.phase.current)
  {
    EveryRun(H, size, r, k, i);
    var n := r.states[k].nodes[i];
    if n.phase.Walk? && !InChain(n.blocks, n.phase.current.finhash) {
      FetchIsAboveGenesis(r.states[k].reg, n);
      MinedStartsWithZero(H, n.phase.current);
    }
  }

  // ----- `repair_blockchain` leaves `chain_length` alone -----

  function ReorganiseKeepingLength(n: Node, toAdd: seq<Block>, k: nat): Node
    requires k <= |n.blocks|
  {
    Reorganise(n, toAdd, k).(chainLength := n.chainLength)
  }

  /** The field is right after a repair exactly when as many blocks came as went. */
  lemma StaleLengthIff(n: Node, toAdd: seq<Block>, k: nat)
    requires k <= |n.blocks| && n.chainLength == |n.blocks|
    ensures var m := ReorganiseKeepingLength(n, toAdd, k);
            m.chainLength == |m.blocks| <==> |toAdd| == k
  {
  }

  /** Repairs only ever go to higher blocks, so after each one the field is too small, and the next
      appended block gets a number that is not its height. */
  lemma LengthIsStaleAfterEveryRepair(reg: Reg, n: Node, b: Block)
    requires Sound(reg) && ChainInv(reg, n) && WalkInv(reg, n) && n.phase.Walk?
    requires InChain(n.blocks, n.phase.current.finhash)
    ensures var k := IndexOf(n.blocks, n.phase.current.finhash);
            var m := ReorganiseKeepingLength(n, n.phase.toAdd, k);
            && m.chainLength < |m.blocks|
            && AddBlock(m, b).blocks[0].number < |AddBlock(m, b).blocks|
  {
    ReorganiseIsRepair(reg, n);
    HeadNumber(reg, n);
  }

  // ----- mining clears `max_ind` before the block is sent -----

  /** What peers receive of a mined block: no votes at all, unless it had none. */
  lemma MinedBlockArrivesEmpty(b: Block)
    requires |b.txs| <= TXS_PER_BLOCK
    ensures var sent := InMemory(b).(maxInd := 0);
            && Encodable(sent) && -HALF64 <= Encoded(sent).magic < HALF64
            && (forall i :: 0 <= i < TXS_PER_BLOCK ==> Decoded(Encoded(sent)).slots[i].None?)
            && (Decoded(Encoded(sent)).slots == InMemory(b).slots <==> b.txs == [])
  {
    var sent := InMemory(b).(maxInd := 0);
    SignedRoundTrip(b.magic);
    var arrived := Decoded(Encoded(sent));
    assert forall i :: 0 <= i < TXS_PER_BLOCK ==> arrived.slots[i].None?;
    if b.txs != [] {
      assert InMemory(b).slots[0] == Some(b.txs[0]);
      assert arrived.slots[0] != InMemory(b).slots[0];
    }
  }

  // ----- `verify_transactions` does not compare the votes of one block with each other -----

  /** An accepted block keeps one vote per voter exactly when its own keys are distinct. */
  lemma AcceptedKeepsOneVoteIff(n: Node, b: Block)
    requires n.blocks != [] && n.voted == ChainKeys(n.blocks) && UniqueKeys(n.blocks)
    requires CheckValidity(n.blocks, n.voted, b) == OK
    ensures UniqueKeys(AddBlock(n, b).blocks) <==> DistinctKeys(b.txs)
  {
    var m := AddBlock(n, b);
    assert m.blocks[1..] == n.blocks;
  }

  /** Eight votes of one new voter are accepted. */
  lemma EightVotesOfOneVoter(t: Transaction)
    ensures var txs := [t, t, t, t, t, t, t, t];
            var b := Block(2, GENESIS_HASH, 1, NO_DIGEST, txs, DEFAULT_VERIFIER, NO_DIGEST);
            CheckValidity(INITIAL.blocks, INITIAL.voted, b) == OK && !DistinctKeys(b.txs)
  {
    var txs := [t, t, t, t, t, t, t, t];
    assert txs[0].key == txs[1].key;
  }
}
