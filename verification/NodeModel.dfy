/** One peer as a state machine. A phase is what the processing thread does between two
    points at which other nodes or the server thread of the same peer may act. */
module NodeModel {
  import opened Ledger
  import opened Registry
  import opened Hashing

  datatype Validity = OK | PrevBlockNonmatch | TransactionInvalid

  datatype Phase =
    | Head                                                        // top of the loop
    | Walk(target: Block, toAdd: seq<Block>, current: Block)      // inside `repair_blockchain`
    | Take                                                        // about to pop a transaction
    | Mine                                                        // about to try nonces
    | Aborted                                                     // an `assert` has failed

  /** `tries` counts the nonces tried on the working block; its `magic` is `tries` as a 64-bit word. */
  datatype Node = Node(
    blocks: seq<Block>, voted: set<Key>, chainLength: nat,
    tq: seq<Transaction>, bq: seq<Block>,
    work: seq<Transaction>, tries: nat, quotafull: bool, phase: Phase)

  /** A step's new state and the block it sends to the peers. */
  datatype Result = Result(node: Node, sent: Option<Block>)

  const INITIAL: Node := Node([GENESIS], {}, 1, [], [], [], 0, false, Head)

  // ----- the chain operations -----

  function CheckValidity(blocks: seq<Block>, voted: set<Key>, b: Block): Validity
    requires blocks != []
  {
    if b.prev != blocks[0].finhash then PrevBlockNonmatch
    else if !(Keys(b.txs) !! voted) then TransactionInvalid
    else OK
  }

  /** The verdict on any block, by the positions of its votes. */
  lemma VerdictIff(blocks: seq<Block>, voted: set<Key>, b: Block)
    requires blocks != []
    ensures var v := CheckValidity(blocks, voted, b);
            && (v == PrevBlockNonmatch <==> b.prev != blocks[0].finhash)
            && (v == TransactionInvalid <==>
                  b.prev == blocks[0].finhash && exists i :: 0 <= i < |b.txs| && b.txs[i].key in voted)
            && (v == OK <==> b.prev == blocks[0].finhash && forall i :: 0 <= i < |b.txs| ==> b.txs[i].key !in voted)
  {
    forall i | 0 <= i < |b.txs|
      ensures b.txs[i].key in Keys(b.txs)
    {
    }
  }

  function AddBlock(n: Node, b: Block): Node {
    n.(chainLength := n.chainLength + 1,
       blocks := [b.(number := n.chainLength + 1)] + n.blocks,
       voted := n.voted + Keys(b.txs))
  }

  /** A new working block; the votes of the old one go back to the queue. */
  function DropWork(n: Node): Node {
    n.(quotafull := false, tq := n.tq + n.work, work := [], tries := 0)
  }

  predicate InChain(blocks: seq<Block>, h: Digest) {
    exists i :: 0 <= i < |blocks| && blocks[i].finhash == h
  }

  /** Position of the first block with hash `h`, or the length of the list. */
  function IndexOf(blocks: seq<Block>, h: Digest): (k: nat)
    ensures k <= |blocks|
    ensures k < |blocks| ==> blocks[k].finhash == h
  {
    if blocks == [] || blocks[0].finhash == h then 0 else 1 + IndexOf(blocks[1..], h)
  }

  lemma {:induction false} IndexOfIsFirst(blocks: seq<Block>, h: Digest)
    ensures forall i :: 0 <= i < IndexOf(blocks, h) ==> blocks[i].finhash != h
    ensures IndexOf(blocks, h) < |blocks| <==> InChain(blocks, h)
  {
    if blocks != [] && blocks[0].finhash != h {
      var rest := blocks[1..];
      IndexOfIsFirst(rest, h);
      assert forall i :: 0 < i < |blocks| ==> blocks[i] == rest[i - 1];
    }
  }

  // ----- the phases -----

  function HandleBlock(n: Node): Result
    requires n.phase == Head && n.bq != [] && n.blocks != []
  {
    var b := n.bq[0];
    var m := n.(bq := n.bq[1..]);
    match CheckValidity(n.blocks, n.voted, b)
    case OK =>
      var m' := AddBlock(m, b);
      Result(DropWork(m').(phase := Take), Some(m'.blocks[0]))
    case PrevBlockNonmatch =>
      if b.number > n.blocks[0].number then Result(m.(phase := Walk(b, [], b)), None)
      else Result(m, None)
    case TransactionInvalid =>
      Result(m, None)
  }

  /** Exactly one block leaves the queue, the front one, whatever the verdict. A child of the head with a
      recorded voter changes nothing else and is not sent on, and neither is a block on another parent
      that is not higher. A higher one on another parent only sets off a walk. */
  lemma RefusedChangesNothing(n: Node)
    requires n.phase == Head && n.bq != [] && n.blocks != []
    ensures var b := n.bq[0];
            var r := HandleBlock(n);
            && r.node.bq == n.bq[1..]
            && (b.prev == n.blocks[0].finhash && (exists i :: 0 <= i < |b.txs| && b.txs[i].key in n.voted) ==>
                  r == Result(n.(bq := n.bq[1..]), None))
            && (b.prev != n.blocks[0].finhash && b.number <= n.blocks[0].number ==>
                  r == Result(n.(bq := n.bq[1..]), None))
            && (b.prev != n.blocks[0].finhash && b.number > n.blocks[0].number ==>
                  r == Result(n.(bq := n.bq[1..], phase := Walk(b, [], b)), None))
  {
    VerdictIff(n.blocks, n.voted, n.bq[0]);
  }

  /** An accepted child of the head goes on top; the votes of the working block, whole and in order,
      go behind the queue, and the block that is sent on is the new head. */
  lemma AcceptedGoesOnTop(n: Node)
    requires n.phase == Head && n.bq != [] && n.blocks != []
    requires n.bq[0].prev == n.blocks[0].finhash
    requires forall i :: 0 <= i < |n.bq[0].txs| ==> n.bq[0].txs[i].key !in n.voted
    ensures var r := HandleBlock(n);
            && r.node.blocks == [n.bq[0].(number := n.chainLength + 1)] + n.blocks
            && r.node.chainLength == n.chainLength + 1
            && r.sent == Some(r.node.blocks[0])
            && r.node.voted == n.voted + Keys(n.bq[0].txs)
            && r.node.tq == n.tq + n.work
            && r.node.work == [] && r.node.tries == 0 && !r.node.quotafull && r.node.phase == Take
  {
    VerdictIff(n.blocks, n.voted, n.bq[0]);
  }

  /** One turn of the repair walk: a neighbour's answer for the parent of `current`. */
  function Fetch(n: Node, answer: Option<Block>): Node
    requires n.phase.Walk?
  {
    match answer
    case None => n.(phase := Head)
    case Some(parent) =>
      n.(phase := Walk(n.phase.target, n.phase.toAdd + [n.phase.current], parent))
  }

  /** The chain part of a repair that has met the chain at index `k`. */
  function Reorganise(n: Node, toAdd: seq<Block>, k: nat): Node
    requires k <= |n.blocks|
  {
    var evicted := n.blocks[..k];
    n.(blocks := toAdd + n.blocks[k..],
       chainLength := |toAdd| + |n.blocks| - k,
       voted := n.voted - ChainKeys(evicted) + ChainKeys(toAdd),
       tq := n.tq + ChainTxs(evicted))
  }

  function Splice(n: Node): Result
    requires n.phase.Walk?
  {
    var k := IndexOf(n.blocks, n.phase.current.finhash);
    var m := Reorganise(n, n.phase.toAdd, k);
    Result(DropWork(m).(phase := Take), Some(n.phase.target))
  }

  /** An adopted repair: the votes of the evicted blocks, newest block first, and then those of the
      working block go behind the queue, whole and in order. */
  lemma SplicedVotes(n: Node)
    requires n.phase.Walk? && InChain(n.blocks, n.phase.current.finhash)
    ensures var n' := Splice(n).node;
            exists k: nat ::
              && k < |n.blocks| && n.blocks[k].finhash == n.phase.current.finhash
              && (forall i :: 0 <= i < k ==> n.blocks[i].finhash != n.phase.current.finhash)
              && n'.blocks == n.phase.toAdd + n.blocks[k..]
              && n'.tq == n.tq + ChainTxs(n.blocks[..k]) + n.work
              && n'.work == [] && n'.bq == n.bq
  {
    var k := IndexOf(n.blocks, n.phase.current.finhash);
    IndexOfIsFirst(n.blocks, n.phase.current.finhash);
    assert Splice(n).node.tq == n.tq + ChainTxs(n.blocks[..k]) + n.work;
  }

  function TakeTx(n: Node): Node
    requires n.phase == Take && (n.quotafull || n.tq != [])
  {
    if n.quotafull then n.(phase := Mine)
    else
      var t := n.tq[0];
      var m := n.(tq := n.tq[1..]);
      if t.key in n.voted || t.key in Keys(n.work) then m.(phase := Head)
      else
        var full := |n.work| + 1 == TXS_PER_BLOCK;
        m.(work := n.work + [t], quotafull := full, phase := if full then Mine else Head)
  }

  /** The voter of the first queued vote is on the chain or in the working block. */
  ghost predicate FrontIsRepeat(n: Node)
    requires n.tq != []
  {
    n.tq[0].key in n.voted || exists i :: 0 <= i < |n.work| && n.work[i].key == n.tq[0].key
  }

  /** With room in the working block exactly the front vote leaves the queue. It is thrown out, and
      nothing else changes, when its voter is a repeat; otherwise it goes to the end of the working
      block. A full working block goes to mining as it is. */
  lemma TakesFront(n: Node)
    requires n.phase == Take && (n.quotafull || n.tq != [])
    ensures n.quotafull ==> TakeTx(n) == n.(phase := Mine)
    ensures !n.quotafull ==>
              && TakeTx(n).tq == n.tq[1..]
              && (FrontIsRepeat(n) ==> TakeTx(n) == n.(tq := n.tq[1..], phase := Head))
              && (!FrontIsRepeat(n) ==>
                    && TakeTx(n).work == n.work + [n.tq[0]]
                    && TakeTx(n).quotafull == (|TakeTx(n).work| == TXS_PER_BLOCK)
                    && TakeTx(n).phase == (if TakeTx(n).quotafull then Mine else Head)
                    && TakeTx(n).blocks == n.blocks && TakeTx(n).voted == n.voted && TakeTx(n).bq == n.bq
                    && TakeTx(n).tries == n.tries && TakeTx(n).chainLength == n.chainLength)
  {
    if !n.quotafull {
      var t := n.tq[0];
      if t.key in Keys(n.work) {
        var u :| u in n.work && u.key == t.key;
      }
      assert forall i :: 0 <= i < |n.work| ==> n.work[i].key in Keys(n.work);
    }
  }

  /** The 64-bit word that the `k`-th increment leaves in `magic`. */
  function Nonce(k: nat): (r: nat)
    ensures r < WORD64
  {
    if k < WORD64 then k else Nonce(k - WORD64)
  }

  lemma {:induction false} NonceIsRemainder(k: nat)
    ensures Nonce(k) == k % WORD64
  {
    if k >= WORD64 {
      NonceIsRemainder(k - WORD64);
    }
  }

  /** Incrementing the word is what the next try does. */
  lemma {:induction false} NextNonce(k: nat)
    ensures Nonce(k + 1) == if Nonce(k) + 1 == WORD64 then 0 else Nonce(k) + 1
  {
    if k >= WORD64 {
      NextNonce(k - WORD64);
    }
  }

  /** None of the first `m` nonces meets the target. */
  ghost predicate NoneMeets(H: Sha, txs: seq<Transaction>, m: nat)
    requires |txs| == TXS_PER_BLOCK
  {
    forall j :: 1 <= j <= m ==> !Meets(H, txs, Nonce(j))
  }

  /** The first try after number `from`, up to number `upto`, whose nonce meets the target. */
  ghost function FirstHit(H: Sha, txs: seq<Transaction>, from: nat, upto: nat): (r: Option<nat>)
    requires |txs| == TXS_PER_BLOCK && from <= upto
    ensures r.Some? ==> from < r.value <= upto && Meets(H, txs, Nonce(r.value))
    ensures r.Some? ==> forall j :: from < j < r.value ==> !Meets(H, txs, Nonce(j))
    ensures r.None? ==> forall j :: from < j <= upto ==> !Meets(H, txs, Nonce(j))
    decreases upto - from
  {
    if from == upto then None
    else if Meets(H, txs, Nonce(from + 1)) then Some(from + 1)
    else FirstHit(H, txs, from + 1, upto)
  }

  ghost function MinedBlock(H: Sha, n: Node, k: nat): Block
    requires |n.work| == TXS_PER_BLOCK && n.blocks != []
  {
    Block(n.chainLength + 1, n.blocks[0].finhash, Nonce(k), Root(H, n.work), n.work,
          DEFAULT_VERIFIER, FinalHash(H, n.work, Nonce(k)))
  }

  ghost function MineRound(H: Sha, n: Node): Result
    requires n.phase == Mine && |n.work| == TXS_PER_BLOCK && n.blocks != []
  {
    if Root(H, n.work)[0] == 0 then Result(n.(phase := Aborted), None)
    else
      match FirstHit(H, n.work, n.tries, n.tries + MAGIC_TRIES)
      case None => Result(n.(tries := n.tries + MAGIC_TRIES, phase := Head), None)
      case Some(k) =>
        var m := AddBlock(n, MinedBlock(H, n, k));
        Result(m.(work := [], tries := 0, quotafull := false, phase := Head), Some(m.blocks[0]))
  }

  // ----- what holds of a node at every point -----

  ghost predicate ChainInv(reg: Reg, n: Node)
    requires Linked(reg)
  {
    && n.blocks != [] && Holds(reg, n.blocks[0])
    && n.blocks == Ancestry(reg, n.blocks[0].finhash)
    && n.chainLength == |n.blocks|
    && n.voted == ChainKeys(n.blocks)
  }

  ghost predicate WorkInv(H: Sha, n: Node) {
    && |n.work| <= TXS_PER_BLOCK
    && (n.quotafull <==> |n.work| == TXS_PER_BLOCK)
    && DistinctKeys(n.work)
    && Keys(n.work) !! n.voted
    && (n.phase == Mine ==> n.quotafull)
    && (!n.quotafull ==> n.tries == 0)
    && (n.quotafull ==> NoneMeets(H, n.work, n.tries))
  }

  ghost predicate QueueInv(reg: Reg, n: Node) {
    forall b :: b in n.bq ==> Holds(reg, b) && b.finhash != GENESIS_HASH
  }

  /** The walk has collected a prefix of the target's ancestry and stands at the next block. */
  ghost predicate WalkInv(reg: Reg, n: Node)
    requires Linked(reg)
  {
    n.phase.Walk? ==>
      && Holds(reg, n.phase.target) && Holds(reg, n.phase.current)
      && n.phase.toAdd + Ancestry(reg, n.phase.current.finhash) == Ancestry(reg, n.phase.target.finhash)
      && n.blocks != [] && n.phase.target.number > n.blocks[0].number
  }

  ghost predicate NodeInv(H: Sha, reg: Reg, n: Node)
    requires Linked(reg)
  {
    ChainInv(reg, n) && WorkInv(H, n) && QueueInv(reg, n) && WalkInv(reg, n)
  }

  /** Everything a voter's key can be in at this node. */
  ghost function Known(n: Node): set<Key> {
    Keys(n.tq) + Keys(n.work) + n.voted
  }

  // ----- single steps -----

  lemma HeadNumber(reg: Reg, n: Node)
    requires Linked(reg) && ChainInv(reg, n)
    ensures n.blocks[0].number == |n.blocks| == n.chainLength
  {
  }

  /** A block on top of the head is exactly the child of the head, and its keys are new. */
  lemma ChildOfHead(reg: Reg, n: Node, b: Block)
    requires Linked(reg) && OneVote(reg) && ChainInv(reg, n)
    requires Holds(reg, b) && b.prev == n.blocks[0].finhash && b.finhash != GENESIS_HASH
    ensures b.number == n.chainLength + 1
    ensures Ancestry(reg, b.finhash) == [b] + n.blocks
    ensures DistinctKeys(b.txs) && Keys(b.txs) !! n.voted
    ensures CheckValidity(n.blocks, n.voted, b) == OK
  {
    assert LinkOk(reg, b.finhash);
    assert OneVoteAt(reg, b.finhash);
    assert ([b] + n.blocks)[1..] == n.blocks;
  }
}
