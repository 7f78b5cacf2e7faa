/** The runs of the model are not empty: eight queued votes of new voters, left undisturbed, fill a
    working block, and if any nonce works the block is mined and put on the chain. */
module Liveness {
  import opened Ledger
  import opened Registry
  import opened Hashing
  import opened NodeModel
  import opened NodeSafety
  import opened Network
  import opened Guarantees
  import opened Mining

  ghost predicate RunFrom(H: Sha, r: Behaviour, s: Net, t: Net) {
    IsRun(H, r) && r.states[0] == s && r.states[|r.states| - 1] == t
  }

  /** Some run leads from `s` to `t`. */
  ghost predicate Leads(H: Sha, s: Net, t: Net) {
    exists r :: RunFrom(H, r, s, t)
  }

  lemma StayLeads(H: Sha, s: Net)
    ensures Leads(H, s, s)
  {
    assert RunFrom(H, Behaviour([s], []), s, s);
  }

  lemma StepLeads(H: Sha, s: Net, e: Event)
    requires Enabled(s, e) && DistinctHashes(H, s, e)
    ensures Leads(H, s, Step(H, s, e))
  {
    var r := Behaviour([s, Step(H, s, e)], [e]);
    assert StepAt(H, r, 0);
    assert RunFrom(H, r, s, Step(H, s, e));
  }

  lemma LeadsOn(H: Sha, s: Net, t: Net, u: Net)
    requires Leads(H, s, t) && Leads(H, t, u)
    ensures Leads(H, s, u)
  {
    var a :| RunFrom(H, a, s, t);
    var b :| RunFrom(H, b, t, u);
    var r := Behaviour(a.states + b.states[1..], a.events + b.events);
    forall k | 0 <= k < |r.events|
      ensures StepAt(H, r, k)
    {
      if k < |a.events| {
        assert StepAt(H, a, k);
        assert r.events[k] == a.events[k] && r.states[k] == a.states[k] && r.states[k + 1] == a.states[k + 1];
      } else {
        var j := k - |a.events|;
        assert StepAt(H, b, j);
        assert r.events[k] == b.events[j] && r.states[k] == b.states[j] && r.states[k + 1] == b.states[j + 1];
      }
    }
    assert RunFrom(H, r, s, u);
  }

  /** Peer `i` becomes `n`; nobody else moves. */
  function With(s: Net, i: nat, n: Node): Net
    requires i < |s.nodes|
  {
    s.(nodes := s.nodes[i := n])
  }

  lemma WithTwice(s: Net, i: nat, a: Node, b: Node)
    requires i < |s.nodes|
    ensures With(With(s, i, a), i, b) == With(s, i, b) && With(s, i, s.nodes[i]) == s
  {
  }

  lemma IdleLeads(H: Sha, s: Net, i: nat)
    requires i < |s.nodes| && s.nodes[i].phase == Head && s.nodes[i].bq == [] && s.nodes[i].blocks != []
    ensures Leads(H, s, With(s, i, s.nodes[i].(phase := Take)))
  {
    StepLeads(H, s, Idle(i));
  }

  lemma TakeLeads(H: Sha, s: Net, i: nat)
    requires i < |s.nodes| && s.nodes[i].phase == Take && s.nodes[i].blocks != []
    requires s.nodes[i].quotafull || s.nodes[i].tq != []
    ensures Leads(H, s, With(s, i, TakeTx(s.nodes[i])))
  {
    var e := TakeVote(i, {});
    StepLeads(H, s, e);
    assert Step(H, s, e).nodes == s.nodes[i := TakeTx(s.nodes[i])];
  }

  // ----- filling a working block -----

  /** A peer at the top of its loop with no block waiting and a working block of `done` votes. */
  ghost predicate Filling(n: Node, done: nat, txs: seq<Transaction>, more: seq<Transaction>) {
    && n.phase == Head && n.bq == [] && n.blocks != []
    && done < TXS_PER_BLOCK && |txs| == TXS_PER_BLOCK
    && n.work == txs[..done] && n.tq == txs[done..] + more && !n.quotafull && n.tries == 0
    && DistinctKeys(txs) && Keys(txs) !! n.voted
  }

  ghost function Filled(n: Node, done: nat, txs: seq<Transaction>, more: seq<Transaction>): Node
    requires done <= |txs|
  {
    n.(work := txs[..done], tq := txs[done..] + more, quotafull := done == TXS_PER_BLOCK,
       phase := if done == TXS_PER_BLOCK then Mine else Head)
  }

  lemma TakesNext(n: Node, done: nat, txs: seq<Transaction>, more: seq<Transaction>)
    requires Filling(n, done, txs, more)
    ensures TakeTx(n.(phase := Take)) == Filled(n, done + 1, txs, more)
  {
    var t := txs[done];
    assert n.tq[0] == t && n.tq[1..] == txs[done + 1..] + more;
    assert t in txs;
    assert t.key !in Keys(n.work) by {
      assert forall u :: u in n.work ==> exists j :: 0 <= j < done && txs[j] == u;
    }
    assert txs[..done + 1] == n.work + [t];
  }

  /** One loop turn: the next vote enters the working block. */
  lemma FillOne(H: Sha, s: Net, i: nat, done: nat, txs: seq<Transaction>, more: seq<Transaction>)
    requires i < |s.nodes| && Filling(s.nodes[i], done, txs, more)
    ensures Leads(H, s, With(s, i, Filled(s.nodes[i], done + 1, txs, more)))
  {
    var n := s.nodes[i];
    var s1 := With(s, i, n.(phase := Take));
    IdleLeads(H, s, i);
    TakeLeads(H, s1, i);
    TakesNext(n, done, txs, more);
    WithTwice(s, i, n.(phase := Take), Filled(n, done + 1, txs, more));
    LeadsOn(H, s, s1, With(s, i, Filled(n, done + 1, txs, more)));
  }

  /** Eight queued votes of eight new voters become a full working block, in queue order. */
  lemma {:induction false} Fills(H: Sha, s: Net, i: nat, done: nat, txs: seq<Transaction>, more: seq<Transaction>)
    requires i < |s.nodes| && Filling(s.nodes[i], done, txs, more)
    ensures Leads(H, s, With(s, i, Filled(s.nodes[i], TXS_PER_BLOCK, txs, more)))
    decreases TXS_PER_BLOCK - done
  {
    var n := s.nodes[i];
    FillOne(H, s, i, done, txs, more);
    if done + 1 < TXS_PER_BLOCK {
      var n' := Filled(n, done + 1, txs, more);
      var s' := With(s, i, n');
      Fills(H, s', i, done + 1, txs, more);
      var last := Filled(n, TXS_PER_BLOCK, txs, more);
      assert Filled(n', TXS_PER_BLOCK, txs, more) == last;
      WithTwice(s, i, n', last);
      LeadsOn(H, s, s', With(s, i, last));
    }
  }

  // ----- mining it -----

  /** A peer about to try further nonces on a full working block, undisturbed. */
  ghost predicate Ready(H: Sha, n: Node) {
    && n.phase == Mine && n.quotafull && n.bq == [] && n.blocks != []
    && |n.work| == TXS_PER_BLOCK && Root(H, n.work)[0] != 0
  }

  /** A round that finds nothing. */
  lemma MissLeads(H: Sha, s: Net, i: nat)
    requires i < |s.nodes| && Ready(H, s.nodes[i])
    requires FirstHit(H, s.nodes[i].work, s.nodes[i].tries, s.nodes[i].tries + MAGIC_TRIES) == None
    ensures Leads(H, s, With(s, i, s.nodes[i].(tries := s.nodes[i].tries + MAGIC_TRIES, phase := Head)))
  {
    StepLeads(H, s, Try(i, {}));
  }

  /** With a full working block and no block waiting, the loop goes straight back to mining. */
  lemma BackToMining(H: Sha, s: Net, i: nat, n: Node)
    requires i < |s.nodes| && n.phase == Head && n.bq == [] && n.blocks != [] && n.quotafull
    ensures Leads(H, With(s, i, n), With(s, i, n.(phase := Mine)))
  {
    var n' := n.(phase := Take);
    IdleLeads(H, With(s, i, n), i);
    WithTwice(s, i, n, n');
    TakeLeads(H, With(s, i, n'), i);
    WithTwice(s, i, n', n.(phase := Mine));
    LeadsOn(H, With(s, i, n), With(s, i, n'), With(s, i, n.(phase := Mine)));
  }

  lemma EmptyRound(H: Sha, s: Net, i: nat)
    requires i < |s.nodes| && Ready(H, s.nodes[i])
    requires FirstHit(H, s.nodes[i].work, s.nodes[i].tries, s.nodes[i].tries + MAGIC_TRIES) == None
    ensures Leads(H, s, With(s, i, s.nodes[i].(tries := s.nodes[i].tries + MAGIC_TRIES)))
  {
    var n := s.nodes[i];
    var n1 := n.(tries := n.tries + MAGIC_TRIES, phase := Head);
    MissLeads(H, s, i);
    BackToMining(H, s, i, n1);
    LeadsOn(H, s, With(s, i, n1), With(s, i, n1.(phase := Mine)));
  }

  /** What publishing the block of try `k` makes of a node. */
  ghost function AfterHit(H: Sha, n: Node, k: nat): Node
    requires |n.work| == TXS_PER_BLOCK && n.blocks != []
  {
    AddBlock(n, MinedBlock(H, n, k)).(work := [], tries := 0, quotafull := false, phase := Head)
  }

  ghost function Published(H: Sha, s: Net, i: nat, k: nat): Net
    requires i < |s.nodes| && |s.nodes[i].work| == TXS_PER_BLOCK && s.nodes[i].blocks != []
  {
    With(s, i, AfterHit(H, s.nodes[i], k)).(reg := Record(s.reg, Some(MinedBlock(H, s.nodes[i], k))))
  }

  /** The round that finds something. */
  lemma HitRound(H: Sha, s: Net, i: nat, k: nat)
    requires i < |s.nodes| && Ready(H, s.nodes[i])
    requires FirstHit(H, s.nodes[i].work, s.nodes[i].tries, s.nodes[i].tries + MAGIC_TRIES) == Some(k)
    requires MinedBlock(H, s.nodes[i], k).finhash !in s.reg
    ensures Leads(H, s, Published(H, s, i, k))
  {
    var n := s.nodes[i];
    var r := MineRound(H, n);
    assert r == Result(AfterHit(H, n, k), Some(MinedBlock(H, n, k))) by {
      assert AddBlock(n, MinedBlock(H, n, k)).blocks[0] == MinedBlock(H, n, k);
    }
    StepLeads(H, s, Try(i, {}));
    var nodes := s.nodes[i := r.node];
    assert DeliverBlock(nodes, {}, r.sent) == nodes;
  }

  /** Round after round until the first hit, and then the block is on the chain. */
  lemma {:induction false} Mines(H: Sha, s: Net, i: nat, k: nat)
    requires i < |s.nodes| && Ready(H, s.nodes[i])
    requires s.nodes[i].tries < k && Meets(H, s.nodes[i].work, Nonce(k)) && NoneMeets(H, s.nodes[i].work, k - 1)
    requires MinedBlock(H, s.nodes[i], k).finhash !in s.reg
    ensures Leads(H, s, Published(H, s, i, k))
    decreases k - s.nodes[i].tries
  {
    var n := s.nodes[i];
    var hit := FirstHit(H, n.work, n.tries, n.tries + MAGIC_TRIES);
    if hit.Some? {
      assert hit.value == k;
      HitRound(H, s, i, k);
    } else {
      assert n.tries + MAGIC_TRIES < k;
      EmptyRound(H, s, i);
      var n' := n.(tries := n.tries + MAGIC_TRIES);
      var s' := With(s, i, n');
      assert MinedBlock(H, n', k) == MinedBlock(H, n, k);
      Mines(H, s', i, k);
      assert AfterHit(H, n', k) == AfterHit(H, n, k);
      WithTwice(s, i, n', AfterHit(H, n, k));
      LeadsOn(H, s, s', Published(H, s, i, k));
    }
  }

  /** A solvable block has a first try that works. */
  lemma FirstTry(H: Sha, txs: seq<Transaction>) returns (k: nat)
    requires |txs| == TXS_PER_BLOCK && Solvable(H, txs)
    ensures k >= 1 && Meets(H, txs, Nonce(k)) && NoneMeets(H, txs, k - 1)
  {
    var m: nat :| 0 <= m < WORD64 && Meets(H, txs, m);
    var r := RoundOfNonce(H, txs, m);
    var some := FirstHit(H, txs, MAGIC_TRIES * r, MAGIC_TRIES * (r + 1)).value;
    k := FirstHit(H, txs, 0, some).value;
  }

  /** Eight queued votes of eight new voters whose block has a solution are mined by some run: the
      block ends on top of the peer's chain, whatever else is in the network. */
  lemma VotesCanBeMined(H: Sha, s: Net, i: nat, txs: seq<Transaction>, more: seq<Transaction>)
    returns (t: Net, b: Block)
    requires i < |s.nodes| && Filling(s.nodes[i], 0, txs, more)
    requires Root(H, txs)[0] != 0 && Solvable(H, txs)
    requires forall m :: 0 <= m < WORD64 && Meets(H, txs, m) ==> FinalHash(H, txs, m) !in s.reg
    ensures Leads(H, s, t) && |t.nodes| == |s.nodes|
    ensures t.nodes[i].blocks == [b] + s.nodes[i].blocks && t.nodes[i].tq == more
    ensures b.txs == txs && b.prev == s.nodes[i].blocks[0].finhash && Mined(H, b)
  {
    var n := Filled(s.nodes[i], TXS_PER_BLOCK, txs, more);
    var s1 := With(s, i, n);
    var k := FirstTry(H, txs);
    assert txs[..TXS_PER_BLOCK] == txs && txs[TXS_PER_BLOCK..] + more == more;
    Fills(H, s, i, 0, txs, more);
    b := MinedBlock(H, n, k);
    Mines(H, s1, i, k);
    t := Published(H, s1, i, k);
    LeadsOn(H, s, s1, t);
    assert FirstNonce(H, b, k);
  }

  // ----- from the start -----

  function Queued(n: Node, txs: seq<Transaction>): Node {
    n.(tq := n.tq + txs)
  }

  lemma QueuedTwice(n: Node, txs: seq<Transaction>)
    ensures txs == [] ==> Queued(n, txs) == n
    ensures txs != [] ==> Queued(Queued(n, [txs[0]]), txs[1..]) == Queued(n, txs)
  {
    if txs == [] {
      assert n.tq + txs == n.tq;
    } else {
      assert n.tq + [txs[0]] + txs[1..] == n.tq + txs;
    }
  }

  lemma VoteLeads(H: Sha, s: Net, i: nat, t: Transaction)
    requires i < |s.nodes| && s.nodes[i].phase != Aborted && s.nodes[i].blocks != []
    ensures Leads(H, s, With(s, i, Queued(s.nodes[i], [t])))
  {
    StepLeads(H, s, Vote(i, t));
    assert Step(H, s, Vote(i, t)).nodes == s.nodes[i := Queued(s.nodes[i], [t])];
  }

  /** Votes reach a peer's queue one by one. */
  lemma {:induction false} Queues(H: Sha, s: Net, i: nat, n: Node, txs: seq<Transaction>)
    requires i < |s.nodes| && n.phase != Aborted && n.blocks != []
    ensures Leads(H, With(s, i, n), With(s, i, Queued(n, txs)))
    decreases |txs|
  {
    QueuedTwice(n, txs);
    if txs == [] {
      StayLeads(H, With(s, i, n));
    } else {
      var n' := Queued(n, [txs[0]]);
      VoteLeads(H, With(s, i, n), i, txs[0]);
      WithTwice(s, i, n, n');
      Queues(H, s, i, n', txs[1..]);
      LeadsOn(H, With(s, i, n), With(s, i, n'), With(s, i, Queued(n, txs)));
    }
  }

  /** From the very start: any eight votes of different voters whose block has a solution can become
      the first block above genesis. The distinct-hash assumption is met along the way. */
  lemma FirstBlockCanBeMined(H: Sha, size: nat, i: nat, txs: seq<Transaction>) returns (t: Net, b: Block)
    requires i < size && |txs| == TXS_PER_BLOCK && DistinctKeys(txs)
    requires Root(H, txs)[0] != 0 && Solvable(H, txs)
    ensures Leads(H, Start(size), t) && i < |t.nodes|
    ensures t.nodes[i].blocks == [b, GENESIS] && b.txs == txs && Mined(H, b)
  {
    var s := Start(size);
    var s1 := With(s, i, Queued(INITIAL, txs));
    WithTwice(s, i, INITIAL, INITIAL);
    Queues(H, s, i, INITIAL, txs);
    assert s1.nodes[i].tq == txs[0..] + [] && txs[..0] == [];
    forall m | 0 <= m < WORD64 && Meets(H, txs, m)
      ensures FinalHash(H, txs, m) !in s1.reg
    {
      var d := FinalHash(H, txs, m);
      assert d[0] != 0 ==> LeadingZeroDigits(d) <= 1;
    }
    t, b := VotesCanBeMined(H, s1, i, txs, []);
    LeadsOn(H, s, s1, t);
  }
}
