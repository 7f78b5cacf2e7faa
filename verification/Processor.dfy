/** The processing thread of a peer: the phases of its endless loop, as methods on the state it
    updates in place. Each is proved equal to the corresponding step of `NodeModel`. */
module Processing {
  import opened Ledger
  import opened Registry
  import opened Hashing
  import opened NodeModel
  import opened NodeSafety
  import opened ChainStore

  /** A higher block that is no child of the head sets off a walk towards it. */
  lemma WalkStarts(reg: Reg, n: Node)
    requires Sound(reg) && ChainInv(reg, n) && QueueInv(reg, n) && n.phase == Head && n.bq != []
    requires HandleBlock(n).node.phase.Walk?
    ensures ChainInv(reg, HandleBlock(n).node) && WalkInv(reg, HandleBlock(n).node)
  {
    var b := n.bq[0];
    assert b in n.bq;
    assert [] + Ancestry(reg, b.finhash) == Ancestry(reg, b.finhash);
  }

  /** The block phase of one loop turn, with the whole repair walk in it. */
  ghost function Received(reg: Reg, n: Node, fetch: Neighbours): Result
    requires Sound(reg) && Truthful(reg, fetch) && ChainInv(reg, n) && QueueInv(reg, n) && n.phase == Head
  {
    if n.bq == [] then Result(n.(phase := Take), None)
    else
      var r := HandleBlock(n);
      if !r.node.phase.Walk? then r
      else
        WalkStarts(reg, n);
        var w := Walked(reg, r.node, fetch, 0);
        if w.phase.Walk? then Splice(w) else Result(w, None)
  }

  /** `calculate_finhash`; `None` where its assertion on the root's first byte aborts. */
  method CalculateFinhash(H: Sha, txs: seq<Transaction>, magic: nat) returns (root: Digest, finhash: Option<Digest>)
    requires |txs| == TXS_PER_BLOCK
    ensures root == Root(H, txs)
    ensures finhash == if root[0] == 0 then None else Some(FinalHash(H, txs, magic))
    ensures finhash.Some? ==> forall w: Bytes :: |w| == 8 && LittleValue(w) == magic ==> finhash.value == H(root + w)
  {
    forall w: Bytes | |w| == 8 && LittleValue(w) == magic
      ensures FinalHash(H, txs, magic) == H(Root(H, txs) + w)
    {
      FinalHashBytes(H, txs, w);
    }
    assert IsPow2(8) by { assert IsPow2(4) by { assert IsPow2(2); } }
    var levels;
    root, levels := MerkleRoot(H, Leaves(H, txs));
    if root[0] == 0 {
      return root, None;
    }
    finhash := Some(H(Join(root, LittleEndian(magic, 8))));
  }

  /** One try: the hashes of the block with this nonce, and whether they meet the target. */
  method TryOne(H: Sha, txs: seq<Transaction>, magic: nat) returns (root: Digest, finhash: Option<Digest>, hit: bool)
    requires |txs| == TXS_PER_BLOCK
    ensures root == Root(H, txs)
    ensures finhash == if root[0] == 0 then None else Some(FinalHash(H, txs, magic))
    ensures finhash.Some? ==> hit == Meets(H, txs, magic)
  {
    hit := false;
    root, finhash := CalculateFinhash(H, txs, magic);
    if finhash.Some? {
      var zeros := LeadingZeros(finhash.value);
      hit := zeros >= TARGET_ZEROS;
    }
  }

  lemma FirstHitStep(H: Sha, txs: seq<Transaction>, from: nat, upto: nat)
    requires |txs| == TXS_PER_BLOCK && from < upto
    ensures FirstHit(H, txs, from, upto) ==
            if Meets(H, txs, Nonce(from + 1)) then Some(from + 1) else FirstHit(H, txs, from + 1, upto)
  {
  }

  datatype Outcome = Abort | Exhausted | Found(root: Digest, finhash: Digest)

  /** The loop over 1024 nonces. `tries` counts them from the start of the working block. */
  method Search(H: Sha, txs: seq<Transaction>, start: nat, ghost before: nat)
    returns (magic: nat, outcome: Outcome, ghost tries: nat)
    requires |txs| == TXS_PER_BLOCK && start == Nonce(before)
    ensures outcome.Abort? <==> Root(H, txs)[0] == 0
    ensures !outcome.Abort? ==> magic == Nonce(tries)
    ensures outcome.Exhausted? ==>
              tries == before + MAGIC_TRIES && FirstHit(H, txs, before, before + MAGIC_TRIES) == None
    ensures outcome.Found? ==>
              && FirstHit(H, txs, before, before + MAGIC_TRIES) == Some(tries)
              && outcome == Found(Root(H, txs), FinalHash(H, txs, magic))
  {
    magic, tries := start, before;
    for i := 0 to MAGIC_TRIES
      invariant magic == Nonce(tries) && tries == before + i
      invariant i > 0 ==> Root(H, txs)[0] != 0
      invariant FirstHit(H, txs, before, before + MAGIC_TRIES) == FirstHit(H, txs, tries, before + MAGIC_TRIES)
    {
      NextNonce(tries);
      FirstHitStep(H, txs, tries, before + MAGIC_TRIES);
      magic := if magic + 1 == WORD64 then 0 else magic + 1;
      tries := tries + 1;
      var root, finhash, hit := TryOne(H, txs, magic);
      if finhash.None? {
        return magic, Abort, tries;
      }
      if hit {
        return magic, Found(root, finhash.value), tries;
      }
    }
    return magic, Exhausted, tries;
  }

  class Processor {
    const bc: Blockchain
    const tq: SynchronizedQueue<Transaction>
    const bq: SynchronizedQueue<Block>
    var work: seq<Transaction>
    var magic: nat
    var quotafull: bool
    ghost var tries: nat
    ghost var phase: Phase

    ghost predicate Valid()
      reads this
    {
      bc.queue == tq && (phase != Aborted ==> magic == Nonce(tries))
    }

    ghost function State(): Node
      reads this, bc, tq, bq
    {
      Node(bc.blocks, bc.voted, bc.chainLength, tq.items, bq.items, work, tries, quotafull, phase)
    }

    constructor (bc: Blockchain, bq: SynchronizedQueue<Block>)
      ensures Valid() && this.bc == bc && this.tq == bc.queue && this.bq == bq
      ensures work == [] && tries == 0 && !quotafull && phase == Head
    {
      this.bc := bc;
      this.tq := bc.queue;
      this.bq := bq;
      work := [];
      magic := 0;
      quotafull := false;
      tries := 0;
      phase := Head;
    }

    /** Give the votes of the working block back and start a new one. */
    method DiscardWork()
      requires Valid()
      modifies this, tq
      ensures Valid() && phase == Take
      ensures State() == DropWork(old(State())).(phase := Take)
      ensures tq.items == old(tq.items) + old(work) && work == []
    {
      quotafull := false;
      for i := 0 to |work|
        invariant work == old(work) && tq.items == old(tq.items) + work[..i]
        invariant !quotafull
      {
        tq.Push(work[i]);
        assert work[..i + 1] == work[..i] + [work[i]];
      }
      assert work[..|work|] == work;
      work, magic := [], 0;
      tries, phase := 0, Take;
    }

    /** The `OK` case: append, then start a new working block. */
    method AcceptBlock(b: Block) returns (sent: Block)
      requires Valid() && |b.txs| == TXS_PER_BLOCK
      modifies this, bc, tq
      ensures Valid() && phase == Take
      ensures State() == DropWork(AddBlock(old(State()), b)).(phase := Take)
      ensures sent == AddBlock(old(State()), b).blocks[0]
    {
      ghost var n := State();
      assert bc.View(n) == n;
      sent := bc.Append(b, n);
      assert State() == AddBlock(n, b);
      DiscardWork();
    }

    /** The `PREV_BLOCK_NONMATCH` case for a higher block: repair, or give up unchanged. */
    method RepairOnto(b: Block, fetch: Neighbours, ghost reg: Reg) returns (ok: bool)
      requires Valid() && phase == Walk(b, [], b)
      requires Sound(reg) && Truthful(reg, fetch) && ChainInv(reg, State()) && WalkInv(reg, State())
      modifies this, bc, tq
      ensures Valid()
      ensures var w := Walked(reg, old(State()), fetch, 0);
              && ok == w.phase.Walk?
              && (ok ==> State() == Splice(w).node)
              && (!ok ==> State() == w)
    {
      ghost var n := State();
      ghost var w := Walked(reg, n, fetch, 0);
      assert bc.View(n) == n;
      var fetches;
      ok, fetches := bc.RepairBlockchain(b, fetch, reg, n);
      assert State() == bc.View(n) == Repaired(reg, n, fetch);
      RepairedIsSplice(reg, n, fetch);
      if ok {
        DiscardWork();
      } else {
        phase := Head;
      }
    }

    /** The switch over the validity of a block just popped from `before.bq`. */
    method ProcessBlock(b: Block, fetch: Neighbours, ghost reg: Reg, ghost before: Node)
      returns (docontinue: bool, sent: Option<Block>)
      requires Valid() && Sound(reg) && Truthful(reg, fetch) && |b.txs| == TXS_PER_BLOCK
      requires ChainInv(reg, before) && QueueInv(reg, before) && before.phase == Head
      requires before.bq != [] && b == before.bq[0] && State() == before.(bq := before.bq[1..])
      modifies this, bc, tq
      ensures Valid()
      ensures State() == Received(reg, before, fetch).node && sent == Received(reg, before, fetch).sent
      ensures docontinue <==> phase == Head
    {
      var validity := bc.CheckBlockValidity(b);
      match validity
      case OK =>
        var added := AcceptBlock(b);
        return false, Some(added);
      case PrevBlockNonmatch =>
        if b.number <= bc.blocks[0].number {
          return true, None;
        }
        phase := Walk(b, [], b);
        assert State() == HandleBlock(before).node;
        WalkStarts(reg, before);
        var ok := RepairOnto(b, fetch, reg);
        return !ok, if ok then Some(b) else None;
      case TransactionInvalid =>
        return true, None;
    }

    /** Pop a block, check it, and append it, repair onto it or ignore it. */
    method ReceiveBlock(fetch: Neighbours, ghost reg: Reg) returns (docontinue: bool, sent: Option<Block>)
      requires Valid() && phase == Head
      requires Sound(reg) && Truthful(reg, fetch) && ChainInv(reg, State()) && QueueInv(reg, State())
      modifies this, bc, tq, bq
      ensures Valid()
      ensures State() == Received(reg, old(State()), fetch).node
      ensures sent == Received(reg, old(State()), fetch).sent
      ensures docontinue <==> phase == Head
    {
      ghost var n := State();
      var popped := bq.PopNonblocking();
      if popped.None? {
        phase := Take;
        return false, None;
      }
      assert popped.value in n.bq;
      assert LinkOk(reg, popped.value.finhash);
      docontinue, sent := ProcessBlock(popped.value, fetch, reg, n);
    }

    /** Pop a vote and put it in the working block unless its voter is already there or on the
        chain. The queue is not empty: `pop` blocks until it is not. */
    method TakeTransaction() returns (forwarded: Option<Transaction>)
      requires Valid() && phase == Take && (quotafull || tq.items != [])
      modifies this, tq
      ensures Valid() && State() == TakeTx(old(State()))
      ensures old(quotafull) ==> forwarded.None? && work == old(work) && tq.items == old(tq.items)
      ensures !old(quotafull) ==>
                && tq.items == old(tq.items)[1..]
                && (forwarded.Some? <==> !FrontIsRepeat(old(State())))
                && (forwarded.Some? ==> forwarded.value == old(tq.items)[0] && work == old(work) + [forwarded.value])
                && (forwarded.None? ==> work == old(work) && quotafull == old(quotafull))
    {
      TakesFront(State());
      if quotafull {
        phase := Mine;
        return None;
      }
      var popped := tq.PopNonblocking();
      var t := popped.value;
      if t.key in bc.voted {
        phase := Head;
        return None;
      }
      var already := false;
      for i := 0 to |work|
        invariant already <==> exists j :: 0 <= j < i && work[j].key == t.key
      {
        if t.key == work[i].key {
          already := true;
        }
      }
      assert already <==> t.key in Keys(work) by {
        if t.key in Keys(work) {
          var u :| u in work && u.key == t.key;
        }
      }
      if already {
        phase := Head;
        return None;
      }
      work := work + [t];
      if |work| == TXS_PER_BLOCK {
        quotafull := true;
      }
      phase := if quotafull then Mine else Head;
      return Some(t);
    }

    /** Put the found block on the chain and start a new working block. */
    method Publish(root: Digest, finhash: Digest) returns (added: Block)
      requires Valid() && phase == Mine && |work| == TXS_PER_BLOCK && bc.blocks != []
      modifies this, bc
      ensures Valid()
      ensures var n := old(State());
              var b := Block(n.chainLength + 1, n.blocks[0].finhash, old(magic), root, n.work, DEFAULT_VERIFIER, finhash);
              && State() == AddBlock(n, b).(work := [], tries := 0, quotafull := false, phase := Head)
              && added == b
    {
      ghost var n := State();
      assert bc.View(n) == n;
      quotafull := false;
      var b := Block(bc.chainLength + 1, bc.blocks[0].finhash, magic, root, work, DEFAULT_VERIFIER, finhash);
      added := bc.Append(b, n);
      work, magic := [], 0;
      tries, phase := 0, Head;
    }

    /** Up to 1024 further nonces on the full working block. */
    method TryNonces(H: Sha) returns (sent: Option<Block>)
      requires Valid() && phase == Mine && quotafull && |work| == TXS_PER_BLOCK && bc.blocks != []
      modifies this, bc
      ensures Valid()
      ensures State() == MineRound(H, old(State())).node
      ensures sent == MineRound(H, old(State())).sent
    {
      ghost var n := State();
      var outcome;
      ghost var k;
      magic, outcome, k := Search(H, work, magic, tries);
      match outcome
      case Abort =>
        phase := Aborted;
        return None;
      case Exhausted =>
        tries, phase := k, Head;
        return None;
      case Found(root, finhash) =>
        tries := k;
        MineRoundFound(H, n, k);
        var added := Publish(root, finhash);
        return Some(added);
    }
  }

  lemma MineRoundFound(H: Sha, n: Node, k: nat)
    requires n.phase == Mine && |n.work| == TXS_PER_BLOCK && n.blocks != []
    requires Root(H, n.work)[0] != 0 && FirstHit(H, n.work, n.tries, n.tries + MAGIC_TRIES) == Some(k)
    ensures var b := MinedBlock(H, n, k);
            MineRound(H, n) ==
            Result(AddBlock(n, b).(work := [], tries := 0, quotafull := false, phase := Head), Some(b))
  {
    assert AddBlock(n, MinedBlock(H, n, k)).blocks[0] == MinedBlock(H, n, k);
  }

  /** The block phase keeps the whole node invariant, so the next phases can rely on it. */
  lemma ReceivedKeeps(H: Sha, reg: Reg, n: Node, fetch: Neighbours)
    requires Sound(reg) && Truthful(reg, fetch) && NodeInv(H, reg, n) && n.phase == Head
    ensures var r := Received(reg, n, fetch);
            NodeInv(H, reg, r.node) && Known(n) <= Known(r.node) && Climbs(n, r.node)
  {
    if n.bq != [] {
      HandleBlockKeeps(H, reg, n);
      var r := HandleBlock(n);
      if r.node.phase.Walk? {
        var w := Walked(reg, r.node, fetch, 0);
        assert NodeInv(H, reg, w);
        if w.phase.Walk? {
          SpliceKeeps(H, reg, w);
        }
      }
    }
  }
}
