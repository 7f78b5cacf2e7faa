/** What every run of every network guarantees, at each of its states. */
module Guarantees {
  import opened Ledger
  import opened Registry
  import opened Hashing
  import opened NodeModel
  import opened NodeSafety
  import opened Network

  /** A run of `size` peers from the initial state. */
  ghost predicate FromStart(H: Sha, size: nat, r: Behaviour) {
    IsRun(H, r) && r.states[0] == Start(size)
  }

  lemma EveryRun(H: Sha, size: nat, r: Behaviour, k: nat, i: nat)
    requires FromStart(H, size, r) && k < |r.states| && i < size
    ensures Inv(H, r.states[k]) && |r.states[k].nodes| == size
    ensures NodeInv(H, r.states[k].reg, r.states[k].nodes[i])
  {
    StartInv(H, size);
    RunInv(H, r, k);
  }

  /** One vote per voter, on every chain, at every point of every run. The chain is hash-linked down
      to genesis, each block's number is its height, and `voted` holds exactly its voters. */
  lemma OneVotePerVoter(H: Sha, size: nat, r: Behaviour, k: nat, i: nat)
    requires FromStart(H, size, r) && k < |r.states| && i < size
    ensures i < |r.states[k].nodes| &&
            var n := r.states[k].nodes[i];
            && NoKeyTwice(n.blocks)
            && HashLinked(r.states[k].reg, n.blocks)
            && n.chainLength == |n.blocks|
            && (forall j :: 0 <= j < |n.blocks| ==> n.blocks[j].number == |n.blocks| - j)
            && (forall v :: v in n.voted <==> exists j :: 0 <= j < |n.blocks| && v in Keys(n.blocks[j].txs))
  {
    EveryRun(H, size, r, k, i);
    ChainIsSound(H, r.states[k].reg, r.states[k].nodes[i]);
  }

  lemma ChainIsSound(H: Sha, reg: Reg, n: Node)
    requires Sound(reg) && NodeInv(H, reg, n)
    ensures NoKeyTwice(n.blocks) && HashLinked(reg, n.blocks) && n.chainLength == |n.blocks|
    ensures forall j :: 0 <= j < |n.blocks| ==> n.blocks[j].number == |n.blocks| - j
    ensures forall v :: v in n.voted <==> exists j :: 0 <= j < |n.blocks| && v in Keys(n.blocks[j].txs)
  {
    var h := n.blocks[0].finhash;
    assert OneVoteAt(reg, h);
    UniqueKeysIsNoKeyTwice(n.blocks);
    AncestryIsHashLinked(reg, h);
    forall j | 0 <= j < |n.blocks|
      ensures n.blocks[j].number == |n.blocks| - j
    {
      AncestrySuffix(reg, h, j);
    }
    forall v
      ensures v in n.voted <==> exists j :: 0 <= j < |n.blocks| && v in Keys(n.blocks[j].txs)
    {
      ChainKeysAt(n.blocks, v);
    }
  }

  /** A received block whose parent is the head is never turned away for its votes. */
  lemma ChildIsNeverRejected(H: Sha, size: nat, r: Behaviour, k: nat, i: nat)
    requires FromStart(H, size, r) && k < |r.states| && i < size
    ensures i < |r.states[k].nodes| &&
            var n := r.states[k].nodes[i];
            n.blocks != [] &&
            forall b :: b in n.bq && b.prev == n.blocks[0].finhash ==> CheckValidity(n.blocks, n.voted, b) == OK
  {
    EveryRun(H, size, r, k, i);
    var n := r.states[k].nodes[i];
    forall b | b in n.bq && b.prev == n.blocks[0].finhash
      ensures CheckValidity(n.blocks, n.voted, b) == OK
    {
      ChildOfHead(r.states[k].reg, n, b);
    }
  }

  /** Every block above genesis on any chain carries the proof of work of its own votes, with
      the first nonce that works, although no receiver checks it. */
  lemma EveryBlockIsMined(H: Sha, size: nat, r: Behaviour, k: nat, i: nat)
    requires FromStart(H, size, r) && k < |r.states| && i < size
    ensures i < |r.states[k].nodes| &&
            var blocks := r.states[k].nodes[i].blocks;
            forall j :: 0 <= j < |blocks| - 1 ==> Mined(H, blocks[j])
  {
    EveryRun(H, size, r, k, i);
    var s := r.states[k];
    var blocks := s.nodes[i].blocks;
    forall j | 0 <= j < |blocks| - 1
      ensures Mined(H, blocks[j])
    {
      AncestrySuffix(s.reg, blocks[0].finhash, j);
      assert LinkOk(s.reg, GENESIS_HASH);
    }
  }

  /** Two peers that share a block agree on everything below it; with one head they agree on
      the whole chain and on who has voted. */
  lemma AgreeBelowSharedBlock(H: Sha, s: Net, i: nat, j: nat, a: nat, b: nat)
    requires Inv(H, s) && i < |s.nodes| && j < |s.nodes|
    requires a < |s.nodes[i].blocks| && b < |s.nodes[j].blocks|
    requires s.nodes[i].blocks[a].finhash == s.nodes[j].blocks[b].finhash
    ensures s.nodes[i].blocks[a..] == s.nodes[j].blocks[b..]
    ensures a == b == 0 ==> s.nodes[i].blocks == s.nodes[j].blocks && s.nodes[i].voted == s.nodes[j].voted
  {
    assert NodeInv(H, s.reg, s.nodes[i]);
    assert NodeInv(H, s.reg, s.nodes[j]);
    AncestrySuffix(s.reg, s.nodes[i].blocks[0].finhash, a);
    AncestrySuffix(s.reg, s.nodes[j].blocks[0].finhash, b);
  }

  /** At every point the working block can be mined: at most eight votes, no voter twice, none
      on the chain already; `quotafull` says that it is full; no nonce tried so far would do. */
  lemma WorkingBlockIsReady(H: Sha, size: nat, r: Behaviour, k: nat, i: nat)
    requires FromStart(H, size, r) && k < |r.states| && i < size
    ensures i < |r.states[k].nodes| &&
            var n := r.states[k].nodes[i];
            && |n.work| <= TXS_PER_BLOCK && (n.quotafull <==> |n.work| == TXS_PER_BLOCK)
            && DistinctKeys(n.work)
            && (forall t :: t in n.work ==> t.key !in n.voted)
            && (|n.work| == TXS_PER_BLOCK ==> NoneMeets(H, n.work, n.tries))
  {
    EveryRun(H, size, r, k, i);
    var n := r.states[k].nodes[i];
    assert forall t :: t in n.work ==> t.key in Keys(n.work);
  }

  /** A walk that still has to ask has asked fewer than `target.number - 1` times, whatever
      the other peers did in between. */
  lemma WalkIsBounded(H: Sha, size: nat, r: Behaviour, k: nat, i: nat)
    requires FromStart(H, size, r) && k < |r.states| && i < size
    ensures i < |r.states[k].nodes| &&
            var n := r.states[k].nodes[i];
            n.phase.Walk? ==>
              && |n.phase.toAdd| + n.phase.current.number == n.phase.target.number
              && (!InChain(n.blocks, n.phase.current.finhash) ==> |n.phase.toAdd| < n.phase.target.number - 1)
  {
    EveryRun(H, size, r, k, i);
    var n := r.states[k].nodes[i];
    if n.phase.Walk? {
      WalkHeight(r.states[k].reg, n);
      if !InChain(n.blocks, n.phase.current.finhash) {
        FetchIsAboveGenesis(r.states[k].reg, n);
      }
    }
  }

  // ----- chains only climb -----

  lemma StepClimbs(H: Sha, s: Net, e: Event, j: nat)
    requires Inv(H, s) && Enabled(s, e) && DistinctHashes(H, s, e) && j < |s.nodes|
    ensures |Step(H, s, e).nodes| == |s.nodes|
    ensures Climbs(s.nodes[j], Step(H, s, e).nodes[j])
    ensures e.i != j ==> Step(H, s, e).nodes[j].blocks == s.nodes[j].blocks
  {
    LocalKeeps(H, s, e);
    StepShape(H, s, e, j);
  }

  lemma ClimbsTransitive(a: Node, b: Node, c: Node)
    requires Climbs(a, b) && Climbs(b, c)
    ensures Climbs(a, c)
  {
  }

  /** Between any two points of any run a peer keeps its chain or gets a strictly higher head. */
  lemma {:induction false} RunClimbs(H: Sha, r: Behaviour, k: nat, l: nat, j: nat)
    requires IsRun(H, r) && Inv(H, r.states[0]) && k <= l < |r.states| && j < |r.states[0].nodes|
    ensures |r.states[k].nodes| == |r.states[l].nodes| == |r.states[0].nodes|
    ensures Climbs(r.states[k].nodes[j], r.states[l].nodes[j])
    decreases l - k
  {
    RunInv(H, r, k);
    if k < l {
      RunClimbs(H, r, k, l - 1, j);
      RunInv(H, r, l - 1);
      assert StepAt(H, r, l - 1);
      StepClimbs(H, r.states[l - 1], r.events[l - 1], j);
      ClimbsTransitive(r.states[k].nodes[j], r.states[l - 1].nodes[j], r.states[l].nodes[j]);
    }
  }

  // ----- no voter is lost -----

  lemma PrefixKeys(a: seq<Transaction>, b: seq<Transaction>)
    requires a <= b
    ensures Keys(a) <= Keys(b)
  {
    assert b == a + b[|a|..];
    KeysConcat(a, b[|a|..]);
  }

  /** No step of anybody makes a peer forget a voter. */
  lemma StepForgetsNobody(H: Sha, s: Net, e: Event, j: nat)
    requires Inv(H, s) && Enabled(s, e) && DistinctHashes(H, s, e) && j < |s.nodes|
    ensures |Step(H, s, e).nodes| == |s.nodes| && Known(s.nodes[j]) <= Known(Step(H, s, e).nodes[j])
  {
    StepShape(H, s, e, j);
    if e.i == j {
      LocalKeeps(H, s, e);
    } else {
      PrefixKeys(s.nodes[j].tq, Step(H, s, e).nodes[j].tq);
    }
  }

  lemma ForgetsNobodyAt(H: Sha, r: Behaviour, k: nat, j: nat)
    requires IsRun(H, r) && Inv(H, r.states[0]) && k < |r.events| && j < |r.states[0].nodes|
    ensures |r.states[k].nodes| == |r.states[k + 1].nodes| == |r.states[0].nodes|
    ensures Known(r.states[k].nodes[j]) <= Known(r.states[k + 1].nodes[j])
  {
    RunInv(H, r, k);
    assert StepAt(H, r, k);
    StepForgetsNobody(H, r.states[k], r.events[k], j);
  }

  lemma SizeStays(H: Sha, r: Behaviour, k: nat)
    requires IsRun(H, r) && Inv(H, r.states[0]) && k < |r.states|
    ensures |r.states[k].nodes| == |r.states[0].nodes|
  {
    RunInv(H, r, k);
  }

  lemma {:induction false} RunForgetsNobody(H: Sha, r: Behaviour, k: nat, l: nat, j: nat)
    requires IsRun(H, r) && Inv(H, r.states[0]) && k <= l < |r.states| && j < |r.states[0].nodes|
    ensures |r.states[k].nodes| == |r.states[l].nodes| == |r.states[0].nodes|
    ensures Known(r.states[k].nodes[j]) <= Known(r.states[l].nodes[j])
    decreases l - k
  {
    SizeStays(H, r, k);
    if k < l {
      RunForgetsNobody(H, r, k, l - 1, j);
      ForgetsNobodyAt(H, r, l - 1, j);
    }
  }

  /** The keys that a step pushes onto peer `j`'s transaction queue from outside. */
  ghost function Pushes(s: Net, e: Event, j: nat): set<Key> {
    match e
    case Vote(i, t) => if i == j then {t.key} else {}
    case TakeVote(i, to) =>
      if i < |s.nodes| && j in to && Forwarded(s.nodes[i]).Some? then {Forwarded(s.nodes[i]).value.key} else {}
    case _ => {}
  }

  lemma PushedIsKnown(H: Sha, s: Net, e: Event, s': Net, j: nat)
    requires Next(H, s, e, s') && j < |s.nodes|
    ensures |s'.nodes| == |s.nodes| && Pushes(s, e, j) <= Known(s'.nodes[j])
  {
    var tq := s'.nodes[j].tq;
    if e.Vote? && e.i == j {
      assert e.t == tq[|tq| - 1];
    } else if e.TakeVote? && j in e.to && Forwarded(s.nodes[e.i]).Some? {
      assert Forwarded(s.nodes[e.i]).value == tq[|tq| - 1];
    }
  }

  lemma KnownLater(H: Sha, size: nat, r: Behaviour, k: nat, l: nat, i: nat)
    requires FromStart(H, size, r) && k <= l < |r.states| && i < size
    ensures |r.states[k].nodes| == |r.states[l].nodes| == size
    ensures Known(r.states[k].nodes[i]) <= Known(r.states[l].nodes[i])
  {
    StartInv(H, size);
    RunForgetsNobody(H, r, k, l, i);
  }

  lemma PushedAtIsKnown(H: Sha, size: nat, r: Behaviour, k: nat, i: nat, voter: Key)
    requires FromStart(H, size, r) && k < |r.events| && i < size && voter in Pushes(r.states[k], r.events[k], i)
    ensures |r.states[k + 1].nodes| == size && voter in Known(r.states[k + 1].nodes[i])
  {
    KnownLater(H, size, r, k, k, i);
    assert StepAt(H, r, k);
    PushedIsKnown(H, r.states[k], r.events[k], r.states[k + 1], i);
  }

  /** Once step `k` has pushed a vote onto a peer's queue, from a booth or from another peer, its voter
      is in the queue, in the working block or on the chain of that peer at every later point `l`,
      across evictions and discarded working blocks. */
  lemma NoVoterIsLost(H: Sha, size: nat, r: Behaviour, k: nat, l: nat, i: nat, voter: Key)
    requires FromStart(H, size, r) && k < l < |r.states| && i < size
    requires voter in Pushes(r.states[k], r.events[k], i)
    ensures i < |r.states[l].nodes| &&
            var n := r.states[l].nodes[i];
            voter in Keys(n.tq) || voter in Keys(n.work) || voter in n.voted
  {
    PushedAtIsKnown(H, size, r, k, i, voter);
    KnownLater(H, size, r, k + 1, l, i);
  }

  // ----- when a peer acts -----

  /** The longest chain rule, as it is applied: a received block moves the peer, at once or through
      a walk, exactly when its number is larger than the head's. Ties change nothing. */
  lemma MovesOnlyToHigher(H: Sha, reg: Reg, n: Node)
    requires Sound(reg) && NodeInv(H, reg, n) && n.phase == Head && n.bq != []
    ensures var n' := HandleBlock(n).node;
            n'.blocks != n.blocks || n'.phase.Walk? <==> n.bq[0].number > n.blocks[0].number
  {
    HandleBlockKeeps(H, reg, n);
    PopBlockKeeps(H, reg, n);
    if n.bq[0].prev == n.blocks[0].finhash {
      ChildOfHead(reg, n, n.bq[0]);
    }
  }

  /** The thread is inside `pop` on an empty transaction queue. */
  predicate WaitsForVote(n: Node) {
    n.phase == Take && !n.quotafull && n.tq == []
  }

  ghost predicate Acts(s: Net, i: nat, e: Event) {
    e.i == i && !e.Vote? && Enabled(s, e)
  }

  lemma SomeAction(H: Sha, s: Net, i: nat) returns (e: Event)
    requires Inv(H, s) && i < |s.nodes| && s.nodes[i].phase != Aborted && !WaitsForVote(s.nodes[i])
    ensures Acts(s, i, e)
  {
    var n := s.nodes[i];
    assert NodeInv(H, s.reg, n);
    match n.phase
    case Head => e := if n.bq == [] then Idle(i) else Receive(i, {});
    case Walk(_, _, current) => e := if InChain(n.blocks, current.finhash) then Adopt(i, {}) else Ask(i, None);
    case Take => e := TakeVote(i, {});
    case Mine => e := Try(i, {});
  }

  /** A live peer can always act, except while it waits for a vote; then it handles no blocks
      either, however many are queued. */
  lemma OnlyVotesAreWaitedFor(H: Sha, s: Net, i: nat)
    requires Inv(H, s) && i < |s.nodes| && s.nodes[i].phase != Aborted
    ensures (exists e :: Acts(s, i, e)) <==> !WaitsForVote(s.nodes[i])
  {
    if !WaitsForVote(s.nodes[i]) {
      var e := SomeAction(H, s, i);
    }
  }
}
