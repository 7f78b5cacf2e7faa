/** Where whole votes and blocks go in a run. Each law is about one peer and compares its state with
    histories that are read off the events alone. */
module VoteFlow {
  import opened Ledger
  import opened Registry
  import opened Hashing
  import opened NodeModel
  import opened NodeSafety
  import opened Network
  import opened Guarantees

  // ----- what one event does to peer `i` -----

  /** The vote that peer `i` takes off its queue. */
  ghost function TakenAt(s: Net, e: Event, i: nat): seq<Transaction> {
    if e.TakeVote? && e.i == i && i < |s.nodes| && !s.nodes[i].quotafull && s.nodes[i].tq != [] then [s.nodes[i].tq[0]]
    else []
  }

  /** It is thrown out if its voter is on the chain or in the working block. */
  ghost function ThrownAt(s: Net, e: Event, i: nat): seq<Transaction> {
    if TakenAt(s, e, i) != [] && FrontIsRepeat(s.nodes[i]) then TakenAt(s, e, i) else []
  }

  /** Otherwise it goes into the working block. */
  ghost function AcceptedAt(s: Net, e: Event, i: nat): seq<Transaction> {
    if ThrownAt(s, e, i) == [] then TakenAt(s, e, i) else []
  }

  /** Votes from outside: from a booth, or what another peer has just accepted and forwards. */
  ghost function PushedAt(s: Net, e: Event, i: nat): seq<Transaction> {
    match e
    case Vote(j, t) => if j == i then [t] else []
    case TakeVote(j, to) => if i in to then AcceptedAt(s, e, j) else []
    case _ => []
  }

  ghost predicate AcceptsChild(s: Net, e: Event, i: nat) {
    && e.Receive? && e.i == i && i < |s.nodes| && s.nodes[i].bq != [] && s.nodes[i].blocks != []
    && CheckValidity(s.nodes[i].blocks, s.nodes[i].voted, s.nodes[i].bq[0]) == OK
  }

  ghost predicate AdoptsBranch(s: Net, e: Event, i: nat) {
    e.Adopt? && e.i == i && i < |s.nodes| && s.nodes[i].phase.Walk?
  }

  ghost function Evicted(n: Node): seq<Block>
    requires n.phase.Walk?
  {
    n.blocks[..IndexOf(n.blocks, n.phase.current.finhash)]
  }

  /** Votes that go back to the queue: those of evicted blocks and of the discarded working block. */
  ghost function RequeuedAt(s: Net, e: Event, i: nat): seq<Transaction> {
    if AcceptsChild(s, e, i) then s.nodes[i].work
    else if AdoptsBranch(s, e, i) then ChainTxs(Evicted(s.nodes[i])) + s.nodes[i].work
    else []
  }

  /** Votes that come onto the chain in blocks of other peers. */
  ghost function AdoptedAt(s: Net, e: Event, i: nat): seq<Transaction> {
    if AcceptsChild(s, e, i) then s.nodes[i].bq[0].txs
    else if AdoptsBranch(s, e, i) then ChainTxs(s.nodes[i].phase.toAdd)
    else []
  }

  // ----- the vote queue -----

  lemma OthersQueue(H: Sha, s: Net, e: Event, i: nat)
    requires Enabled(s, e) && i < |s.nodes| && i != e.i
    ensures |Step(H, s, e).nodes| == |s.nodes| && Step(H, s, e).nodes[i].tq == s.nodes[i].tq + PushedAt(s, e, i)
  {
    if e.TakeVote? {
      ForwardsAccepted(s, e);
    }
  }

  /** A vote is forwarded exactly when it enters the working block. */
  lemma ForwardsAccepted(s: Net, e: Event)
    requires Enabled(s, e) && e.TakeVote?
    ensures AcceptedAt(s, e, e.i) == if Forwarded(s.nodes[e.i]).Some? then [Forwarded(s.nodes[e.i]).value] else []
  {
    var n := s.nodes[e.i];
    if !n.quotafull {
      TakesFront(n);
      assert forall j :: 0 <= j < |n.work| ==> n.work[j].key in Keys(n.work);
      if n.tq[0].key in Keys(n.work) {
        var u :| u in n.work && u.key == n.tq[0].key;
      }
    }
  }

  lemma ReceiversQueue(s: Net, e: Event)
    requires Enabled(s, e) && e.Receive?
    ensures HandleBlock(s.nodes[e.i]).node.tq == s.nodes[e.i].tq + RequeuedAt(s, e, e.i)
  {
    var n := s.nodes[e.i];
    VerdictIff(n.blocks, n.voted, n.bq[0]);
    if AcceptsChild(s, e, e.i) {
      AcceptedGoesOnTop(n);
    } else {
      RefusedChangesNothing(n);
    }
  }

  lemma TakersQueue(s: Net, e: Event)
    requires Enabled(s, e) && e.TakeVote?
    ensures TakenAt(s, e, e.i) + TakeTx(s.nodes[e.i]).tq == s.nodes[e.i].tq
  {
    var n := s.nodes[e.i];
    TakesFront(n);
    assert n.tq != [] ==> n.tq == [n.tq[0]] + n.tq[1..];
  }

  lemma MoversQueue(H: Sha, s: Net, e: Event)
    requires Enabled(s, e)
    ensures TakenAt(s, e, e.i) + Local(H, s, e).node.tq ==
            s.nodes[e.i].tq + RequeuedAt(s, e, e.i) + PushedAt(s, e, e.i)
  {
    var n := s.nodes[e.i];
    match e
    case Receive(_, _) => ReceiversQueue(s, e);
    case Adopt(_, _) =>
      assert Splice(n).node.tq == n.tq + (ChainTxs(Evicted(n)) + n.work);
    case TakeVote(_, _) => TakersQueue(s, e);
    case _ =>
  }

  lemma StepQueue(H: Sha, s: Net, e: Event, i: nat)
    requires Enabled(s, e) && i < |s.nodes|
    ensures |Step(H, s, e).nodes| == |s.nodes|
    ensures TakenAt(s, e, i) + Step(H, s, e).nodes[i].tq == s.nodes[i].tq + RequeuedAt(s, e, i) + PushedAt(s, e, i)
  {
    if i == e.i {
      StepShape(H, s, e, i);
      MoversQueue(H, s, e);
    } else {
      OthersQueue(H, s, e, i);
    }
  }

  // ----- the working block and the chain -----

  lemma ConcatCounts(a: seq<Transaction>, b: seq<Transaction>)
    ensures multiset(a + b) == multiset(a) + multiset(b)
  {
  }

  lemma OnTopCounts(b: Block, chain: seq<Block>)
    ensures multiset(ChainTxs([b] + chain)) == multiset(b.txs) + multiset(ChainTxs(chain))
  {
    assert ([b] + chain)[1..] == chain;
    ConcatCounts(b.txs, ChainTxs(chain));
  }

  /** Replacing the blocks above position `k` exchanges their votes for those of the new ones. */
  lemma SpliceCounts(n: Node, k: nat, added: seq<Block>)
    requires k <= |n.blocks|
    ensures multiset(ChainTxs(added + n.blocks[k..])) + multiset(ChainTxs(n.blocks[..k])) ==
            multiset(ChainTxs(n.blocks)) + multiset(ChainTxs(added))
  {
    ChainTxsConcat(added, n.blocks[k..]);
    ConcatCounts(ChainTxs(added), ChainTxs(n.blocks[k..]));
    assert n.blocks == n.blocks[..k] + n.blocks[k..];
    ChainTxsConcat(n.blocks[..k], n.blocks[k..]);
    ConcatCounts(ChainTxs(n.blocks[..k]), ChainTxs(n.blocks[k..]));
  }

  ghost function Settled(n: Node): multiset<Transaction> {
    multiset(n.work) + multiset(ChainTxs(n.blocks))
  }

  /** A reorganisation with the discard of the working block. */
  lemma SpliceSettles(n: Node)
    requires n.phase.Walk?
    ensures Settled(Splice(n).node) + multiset(ChainTxs(Evicted(n)) + n.work) ==
            Settled(n) + multiset(ChainTxs(n.phase.toAdd))
  {
    var k := IndexOf(n.blocks, n.phase.current.finhash);
    var n' := Splice(n).node;
    assert n'.blocks == n.phase.toAdd + n.blocks[k..] && n'.work == [];
    assert Settled(n') == multiset(ChainTxs(n'.blocks));
    SpliceCounts(n, k, n.phase.toAdd);
    ConcatCounts(ChainTxs(n.blocks[..k]), n.work);
    Exchange(multiset(ChainTxs(n'.blocks)), multiset(ChainTxs(n.blocks)), multiset(ChainTxs(n.blocks[..k])),
             multiset(ChainTxs(n.phase.toAdd)), multiset(n.work));
  }

  lemma Exchange(new': multiset<Transaction>, old': multiset<Transaction>, gone: multiset<Transaction>,
                 added: multiset<Transaction>, work: multiset<Transaction>)
    requires new' + gone == old' + added
    ensures new' + (gone + work) == work + old' + added
  {
    assert new' + (gone + work) == (new' + gone) + work;
  }

  lemma PublishSettles(H: Sha, n: Node)
    requires n.phase == Mine && |n.work| == TXS_PER_BLOCK && n.blocks != []
    ensures Settled(MineRound(H, n).node) == Settled(n)
  {
    var n' := MineRound(H, n).node;
    if n'.blocks != n.blocks {
      OnTopCounts(n'.blocks[0], n.blocks);
    }
  }

  lemma ReceiveSettles(s: Net, e: Event)
    requires Enabled(s, e) && e.Receive?
    ensures Settled(HandleBlock(s.nodes[e.i]).node) + multiset(RequeuedAt(s, e, e.i)) ==
            Settled(s.nodes[e.i]) + multiset(AdoptedAt(s, e, e.i))
  {
    var n := s.nodes[e.i];
    VerdictIff(n.blocks, n.voted, n.bq[0]);
    if AcceptsChild(s, e, e.i) {
      AcceptedGoesOnTop(n);
      OnTopCounts(n.bq[0].(number := n.chainLength + 1), n.blocks);
    } else {
      RefusedChangesNothing(n);
    }
  }

  lemma TakeSettles(s: Net, e: Event)
    requires Enabled(s, e) && e.TakeVote?
    ensures Settled(TakeTx(s.nodes[e.i])) + multiset(ThrownAt(s, e, e.i)) ==
            Settled(s.nodes[e.i]) + multiset(TakenAt(s, e, e.i))
  {
    TakesFront(s.nodes[e.i]);
  }

  lemma TakesNothing(s: Net, e: Event, i: nat)
    requires !e.TakeVote?
    ensures TakenAt(s, e, i) == ThrownAt(s, e, i) == AcceptedAt(s, e, i) == []
  {
  }

  lemma RequeuesNothing(s: Net, e: Event, i: nat)
    requires !e.Receive? && !e.Adopt?
    ensures RequeuedAt(s, e, i) == AdoptedAt(s, e, i) == []
  {
  }

  /** Steps that touch the chain or nothing at all. */
  lemma ChainSettles(H: Sha, s: Net, e: Event)
    requires Enabled(s, e) && !e.TakeVote?
    ensures Settled(Local(H, s, e).node) + multiset(RequeuedAt(s, e, e.i)) ==
            Settled(s.nodes[e.i]) + multiset(AdoptedAt(s, e, e.i))
  {
    var n := s.nodes[e.i];
    if e.Receive? {
      ReceiveSettles(s, e);
    } else if e.Adopt? {
      SpliceSettles(n);
    } else {
      RequeuesNothing(s, e, e.i);
      if e.Try? {
        PublishSettles(H, n);
      }
    }
  }

  lemma MoverSettles(H: Sha, s: Net, e: Event)
    requires Enabled(s, e)
    ensures Settled(Local(H, s, e).node) + multiset(RequeuedAt(s, e, e.i)) + multiset(ThrownAt(s, e, e.i)) ==
            Settled(s.nodes[e.i]) + multiset(AdoptedAt(s, e, e.i)) + multiset(TakenAt(s, e, e.i))
  {
    if e.TakeVote? {
      RequeuesNothing(s, e, e.i);
      TakeSettles(s, e);
    } else {
      TakesNothing(s, e, e.i);
      ChainSettles(H, s, e);
    }
  }

  // ----- conservation of votes -----

  /** All votes that a peer has, with their multiplicity: queued, in work, on the chain. */
  ghost function VotesOf(n: Node): multiset<Transaction> {
    multiset(n.tq) + multiset(n.work) + multiset(ChainTxs(n.blocks))
  }

  lemma OthersConserve(H: Sha, s: Net, e: Event, i: nat)
    requires Enabled(s, e) && i < |s.nodes| && i != e.i
    ensures |Step(H, s, e).nodes| == |s.nodes|
    ensures VotesOf(Step(H, s, e).nodes[i]) == VotesOf(s.nodes[i]) + multiset(PushedAt(s, e, i))
  {
    StepShape(H, s, e, i);
    OthersQueue(H, s, e, i);
    ConcatCounts(s.nodes[i].tq, PushedAt(s, e, i));
  }

  /** The books of the queue and those of working block and chain, added up. */
  lemma Balance(taken: multiset<Transaction>, tq': multiset<Transaction>, tq: multiset<Transaction>,
                back: multiset<Transaction>, pushed: multiset<Transaction>,
                settled: multiset<Transaction>, settled': multiset<Transaction>,
                thrown: multiset<Transaction>, adopted: multiset<Transaction>)
    requires taken + tq' == tq + back + pushed
    requires settled' + back + thrown == settled + adopted + taken
    ensures tq' + settled' + thrown == tq + settled + pushed + adopted
  {
    forall t
      ensures (tq' + settled' + thrown)[t] == (tq + settled + pushed + adopted)[t]
    {
      assert (taken + tq')[t] == (tq + back + pushed)[t];
      assert (settled' + back + thrown)[t] == (settled + adopted + taken)[t];
    }
  }

  lemma MoversCounts(H: Sha, s: Net, e: Event)
    requires Enabled(s, e)
    ensures multiset(TakenAt(s, e, e.i)) + multiset(Local(H, s, e).node.tq) ==
            multiset(s.nodes[e.i].tq) + multiset(RequeuedAt(s, e, e.i)) + multiset(PushedAt(s, e, e.i))
  {
    MoversQueue(H, s, e);
    ConcatCounts(TakenAt(s, e, e.i), Local(H, s, e).node.tq);
    ConcatCounts(s.nodes[e.i].tq, RequeuedAt(s, e, e.i));
    ConcatCounts(s.nodes[e.i].tq + RequeuedAt(s, e, e.i), PushedAt(s, e, e.i));
  }

  lemma MoverConserves(H: Sha, s: Net, e: Event)
    requires Enabled(s, e)
    ensures VotesOf(Local(H, s, e).node) + multiset(ThrownAt(s, e, e.i)) ==
            VotesOf(s.nodes[e.i]) + multiset(PushedAt(s, e, e.i)) + multiset(AdoptedAt(s, e, e.i))
  {
    var n, n' := s.nodes[e.i], Local(H, s, e).node;
    MoversCounts(H, s, e);
    MoverSettles(H, s, e);
    Balance(multiset(TakenAt(s, e, e.i)), multiset(n'.tq), multiset(n.tq),
            multiset(RequeuedAt(s, e, e.i)), multiset(PushedAt(s, e, e.i)),
            Settled(n), Settled(n'), multiset(ThrownAt(s, e, e.i)), multiset(AdoptedAt(s, e, e.i)));
    assert VotesOf(n) == multiset(n.tq) + Settled(n);
    assert VotesOf(n') == multiset(n'.tq) + Settled(n');
  }

  /** One step: what a peer has afterwards and what it threw out is what it had, what was pushed to it
      and what came with blocks of others. */
  lemma StepConserves(H: Sha, s: Net, e: Event, i: nat)
    requires Enabled(s, e) && i < |s.nodes|
    ensures |Step(H, s, e).nodes| == |s.nodes|
    ensures VotesOf(Step(H, s, e).nodes[i]) + multiset(ThrownAt(s, e, i)) ==
            VotesOf(s.nodes[i]) + multiset(PushedAt(s, e, i)) + multiset(AdoptedAt(s, e, i))
  {
    if i == e.i {
      StepShape(H, s, e, i);
      MoverConserves(H, s, e);
    } else {
      OthersConserve(H, s, e, i);
    }
  }

  // ----- histories -----

  /** `f(0)`, `f(1)`, ..., `f(k - 1)`, one after the other. */
  ghost function Concat<T>(f: nat -> seq<T>, k: nat): seq<T> {
    if k == 0 then [] else Concat(f, k - 1) + f(k - 1)
  }

  /** How many items `f(k)`, ..., `f(l - 1)` have together. */
  ghost function Count<T>(f: nat -> seq<T>, k: nat, l: nat): nat
    requires k <= l
    decreases l
  {
    if k == l then 0 else Count(f, k, l - 1) + |f(l - 1)|
  }

  ghost function Sum<T>(f: nat -> multiset<T>, k: nat): multiset<T> {
    if k == 0 then multiset{} else Sum(f, k - 1) + f(k - 1)
  }

  /** Step `k` takes `outs(k)` from the front of the queue `q` and puts `ins(k)` at its end. */
  ghost predicate Flows<T>(ins: nat -> seq<T>, outs: nat -> seq<T>, q: nat -> seq<T>, k: nat) {
    outs(k) + q(k + 1) == q(k) + ins(k)
  }

  /** A queue that flows is FIFO. */
  lemma {:induction false} FlowIsFifo<T>(ins: nat -> seq<T>, outs: nat -> seq<T>, q: nat -> seq<T>, n: nat)
    requires q(0) == [] && forall k :: 0 <= k < n ==> Flows(ins, outs, q, k)
    ensures Concat(ins, n) == Concat(outs, n) + q(n)
    decreases n
  {
    if n > 0 {
      FlowIsFifo(ins, outs, q, n - 1);
      assert Flows(ins, outs, q, n - 1);
      assert Concat(ins, n) == Concat(outs, n - 1) + (q(n - 1) + ins(n - 1));
      assert Concat(outs, n - 1) + (outs(n - 1) + q(n)) == Concat(outs, n) + q(n);
    }
  }

  lemma {:induction false} FlowCounts<T>(ins: nat -> seq<T>, outs: nat -> seq<T>, q: nat -> seq<T>, k: nat, l: nat)
    requires k <= l && forall m :: k <= m < l ==> Flows(ins, outs, q, m)
    ensures |q(l)| + Count(outs, k, l) == |q(k)| + Count(ins, k, l)
    decreases l
  {
    if k < l {
      FlowCounts(ins, outs, q, k, l - 1);
      assert Flows(ins, outs, q, l - 1);
      assert |outs(l - 1) + q(l)| == |q(l - 1) + ins(l - 1)|;
    }
  }

  // ----- runs: the vote queue -----

  lemma SizeAt(H: Sha, size: nat, r: Behaviour, k: nat)
    requires FromStart(H, size, r) && k < |r.states|
    ensures |r.states[k].nodes| == size
  {
    StartInv(H, size);
    RunInv(H, r, k);
  }

  /** What a step puts at the end of peer `i`'s queue. */
  ghost function EntersAt(s: Net, e: Event, i: nat): seq<Transaction> {
    RequeuedAt(s, e, i) + PushedAt(s, e, i)
  }

  ghost function EntersOf(r: Behaviour, i: nat): nat -> seq<Transaction> {
    (m: nat) => if m < |r.events| && m < |r.states| then EntersAt(r.states[m], r.events[m], i) else []
  }

  ghost function TakesOf(r: Behaviour, i: nat): nat -> seq<Transaction> {
    (m: nat) => if m < |r.events| && m < |r.states| then TakenAt(r.states[m], r.events[m], i) else []
  }

  ghost function QueueOf(r: Behaviour, i: nat): nat -> seq<Transaction> {
    (m: nat) => if m < |r.states| && i < |r.states[m].nodes| then r.states[m].nodes[i].tq else []
  }

  lemma QueueAt(H: Sha, size: nat, r: Behaviour, k: nat, i: nat)
    requires FromStart(H, size, r) && k < |r.events| && i < size
    ensures var s, e := r.states[k], r.events[k];
            && |r.states[k + 1].nodes| == |s.nodes| == size
            && TakenAt(s, e, i) + r.states[k + 1].nodes[i].tq
               == s.nodes[i].tq + EntersAt(s, e, i)
  {
    SizeAt(H, size, r, k);
    assert StepAt(H, r, k);
    StepQueue(H, r.states[k], r.events[k], i);
  }

  lemma VotesFlow(H: Sha, size: nat, r: Behaviour, k: nat, i: nat)
    requires FromStart(H, size, r) && k < |r.events| && i < size
    ensures Flows(EntersOf(r, i), TakesOf(r, i), QueueOf(r, i), k)
  {
    QueueAt(H, size, r, k, i);
  }

  /** The vote queue of a peer is FIFO over whole runs: everything that ever entered it, from booths,
      from other peers, from evicted blocks and from discarded working blocks, is what was taken off,
      in the same order, followed by the contents. */
  lemma VoteQueueIsFifo(H: Sha, size: nat, r: Behaviour, k: nat, i: nat)
    requires FromStart(H, size, r) && k < |r.states| && i < size
    ensures i < |r.states[k].nodes|
    ensures Concat(EntersOf(r, i), k) == Concat(TakesOf(r, i), k) + r.states[k].nodes[i].tq
  {
    SizeAt(H, size, r, k);
    forall m | 0 <= m < k
      ensures Flows(EntersOf(r, i), TakesOf(r, i), QueueOf(r, i), m)
    {
      VotesFlow(H, size, r, m, i);
    }
    FlowIsFifo(EntersOf(r, i), TakesOf(r, i), QueueOf(r, i), k);
  }

  /** Between any two points, every vote taken, repeated or not, makes the queue one shorter, and only
      a vote that enters makes it longer; without new votes the queue just drains. */
  lemma QueueDrains(H: Sha, size: nat, r: Behaviour, k: nat, l: nat, i: nat)
    requires FromStart(H, size, r) && k <= l < |r.states| && i < size
    ensures |r.states[k].nodes| == |r.states[l].nodes| == size
    ensures |r.states[l].nodes[i].tq| + Count(TakesOf(r, i), k, l) ==
            |r.states[k].nodes[i].tq| + Count(EntersOf(r, i), k, l)
  {
    SizeAt(H, size, r, k);
    SizeAt(H, size, r, l);
    forall m | k <= m < l
      ensures Flows(EntersOf(r, i), TakesOf(r, i), QueueOf(r, i), m)
    {
      VotesFlow(H, size, r, m, i);
    }
    FlowCounts(EntersOf(r, i), TakesOf(r, i), QueueOf(r, i), k, l);
  }

  // ----- runs: conservation -----

  ghost function PushedTo(r: Behaviour, i: nat): nat -> multiset<Transaction> {
    (m: nat) => if m < |r.events| && m < |r.states| then multiset(PushedAt(r.states[m], r.events[m], i)) else multiset{}
  }

  ghost function AdoptedBy(r: Behaviour, i: nat): nat -> multiset<Transaction> {
    (m: nat) => if m < |r.events| && m < |r.states| then multiset(AdoptedAt(r.states[m], r.events[m], i)) else multiset{}
  }

  ghost function ThrownBy(r: Behaviour, i: nat): nat -> multiset<Transaction> {
    (m: nat) => if m < |r.events| && m < |r.states| then multiset(ThrownAt(r.states[m], r.events[m], i)) else multiset{}
  }

  ghost function HeldBy(r: Behaviour, i: nat): nat -> multiset<Transaction> {
    (m: nat) => if m < |r.states| && i < |r.states[m].nodes| then VotesOf(r.states[m].nodes[i]) else multiset{}
  }

  /** Step `k` in the books: what is there after it and what it threw out is what was there, what was
      pushed and what was adopted. */
  ghost predicate Books<T>(held: nat -> multiset<T>, thrown: nat -> multiset<T>,
                                 pushed: nat -> multiset<T>, adopted: nat -> multiset<T>, k: nat)
  {
    held(k + 1) + thrown(k) == held(k) + pushed(k) + adopted(k)
  }

  lemma {:induction false} BooksAddUp(held: nat -> multiset<Transaction>, thrown: nat -> multiset<Transaction>,
                                      pushed: nat -> multiset<Transaction>, adopted: nat -> multiset<Transaction>, n: nat)
    requires held(0) == multiset{} && forall k :: 0 <= k < n ==> Books(held, thrown, pushed, adopted, k)
    ensures held(n) + Sum(thrown, n) == Sum(pushed, n) + Sum(adopted, n)
    decreases n
  {
    if n > 0 {
      BooksAddUp(held, thrown, pushed, adopted, n - 1);
      assert Books(held, thrown, pushed, adopted, n - 1);
      Carry(held(n - 1), Sum(thrown, n - 1), Sum(pushed, n - 1), Sum(adopted, n - 1),
            held(n), thrown(n - 1), pushed(n - 1), adopted(n - 1));
    }
  }

  lemma ConservesAt(H: Sha, size: nat, r: Behaviour, k: nat, i: nat)
    requires FromStart(H, size, r) && k < |r.events| && i < size
    ensures var s, e := r.states[k], r.events[k];
            && |r.states[k + 1].nodes| == |s.nodes| == size
            && VotesOf(r.states[k + 1].nodes[i]) + multiset(ThrownAt(s, e, i))
               == VotesOf(s.nodes[i]) + multiset(PushedAt(s, e, i)) + multiset(AdoptedAt(s, e, i))
  {
    SizeAt(H, size, r, k);
    assert StepAt(H, r, k);
    StepConserves(H, r.states[k], r.events[k], i);
  }

  lemma Carry(votes: multiset<Transaction>, thrown: multiset<Transaction>, pushed: multiset<Transaction>,
              adopted: multiset<Transaction>, votes': multiset<Transaction>, t: multiset<Transaction>,
              p: multiset<Transaction>, a: multiset<Transaction>)
    requires votes + thrown == pushed + adopted && votes' + t == votes + p + a
    ensures votes' + (thrown + t) == (pushed + p) + (adopted + a)
  {
    forall x
      ensures (votes' + (thrown + t))[x] == ((pushed + p) + (adopted + a))[x]
    {
      assert (votes + thrown)[x] == (pushed + adopted)[x];
      assert (votes' + t)[x] == (votes + p + a)[x];
    }
  }

  lemma InitialHasNoVotes(size: nat, i: nat)
    requires i < size
    ensures VotesOf(Start(size).nodes[i]) == multiset{}
  {
    assert ChainTxs([GENESIS]) == [] by {
      ChainTxsOne(GENESIS);
    }
  }

  lemma VotesBooked(H: Sha, size: nat, r: Behaviour, k: nat, i: nat)
    requires FromStart(H, size, r) && k < |r.events| && i < size
    ensures Books(HeldBy(r, i), ThrownBy(r, i), PushedTo(r, i), AdoptedBy(r, i), k)
  {
    ConservesAt(H, size, r, k, i);
  }

  /** Votes are conserved in every run, with their multiplicity and unchanged: what a peer has in its
      queue, in its working block and on its chain, together with the repeats it threw out, is exactly
      what was pushed to it and what came with the blocks of others. */
  lemma VotesAreConserved(H: Sha, size: nat, r: Behaviour, k: nat, i: nat)
    requires FromStart(H, size, r) && k < |r.states| && i < size
    ensures i < |r.states[k].nodes|
    ensures VotesOf(r.states[k].nodes[i]) + Sum(ThrownBy(r, i), k) == Sum(PushedTo(r, i), k) + Sum(AdoptedBy(r, i), k)
  {
    SizeAt(H, size, r, k);
    InitialHasNoVotes(size, i);
    forall m | 0 <= m < k
      ensures Books(HeldBy(r, i), ThrownBy(r, i), PushedTo(r, i), AdoptedBy(r, i), m)
    {
      VotesBooked(H, size, r, m, i);
    }
    BooksAddUp(HeldBy(r, i), ThrownBy(r, i), PushedTo(r, i), AdoptedBy(r, i), k);
  }

  // ----- runs: no vote is lost -----

  /** The whole vote `t` is queued, in work or on the chain. */
  ghost predicate HasVote(n: Node, t: Transaction) {
    t in n.tq || t in n.work || exists j :: 0 <= j < |n.blocks| && t in n.blocks[j].txs
  }

  lemma HasVoteIsCounted(n: Node, t: Transaction)
    ensures HasVote(n, t) <==> t in VotesOf(n)
  {
    InChainTxs(n.blocks, t);
  }

  /** Step `m` takes `t` off peer `i`'s queue and throws it out, because its voter is on the chain or
      in the working block at that moment. */
  ghost predicate ThrowsOut(r: Behaviour, m: nat, i: nat, t: Transaction) {
    && m < |r.events| && m < |r.states| && r.events[m].TakeVote? && r.events[m].i == i && i < |r.states[m].nodes|
    && var n := r.states[m].nodes[i];
       n.tq != [] && n.tq[0] == t && FrontIsRepeat(n)
  }

  lemma VoteStays(H: Sha, size: nat, r: Behaviour, k: nat, i: nat, t: Transaction)
    requires FromStart(H, size, r) && k < |r.events| && i < size && |r.states[k].nodes| == size
    requires HasVote(r.states[k].nodes[i], t) || t in PushedAt(r.states[k], r.events[k], i)
    ensures |r.states[k + 1].nodes| == size
    ensures HasVote(r.states[k + 1].nodes[i], t) || ThrowsOut(r, k, i, t)
  {
    var s, e := r.states[k], r.events[k];
    ConservesAt(H, size, r, k, i);
    HasVoteIsCounted(s.nodes[i], t);
    HasVoteIsCounted(r.states[k + 1].nodes[i], t);
    assert t in VotesOf(r.states[k + 1].nodes[i]) + multiset(ThrownAt(s, e, i));
  }

  /** No vote is lost or altered: a vote pushed to a peer by step `k` is, whole, in its queue, in its
      working block or in a block of its chain at every later point, unless it was thrown out in
      between as a repeat. */
  lemma {:induction false} NoVoteIsLost(H: Sha, size: nat, r: Behaviour, k: nat, l: nat, i: nat, t: Transaction)
    requires FromStart(H, size, r) && k < l < |r.states| && i < size
    requires t in PushedAt(r.states[k], r.events[k], i)
    ensures i < |r.states[l].nodes| &&
            (HasVote(r.states[l].nodes[i], t) || exists m :: k <= m < l && ThrowsOut(r, m, i, t))
    decreases l
  {
    SizeAt(H, size, r, l - 1);
    if k < l - 1 {
      NoVoteIsLost(H, size, r, k, l - 1, i, t);
    }
    if HasVote(r.states[l - 1].nodes[i], t) || k == l - 1 {
      VoteStays(H, size, r, l - 1, i, t);
    }
    SizeAt(H, size, r, l);
  }

  // ----- runs: the working block -----

  ghost function TriedAt(H: Sha, s: Net, e: Event, i: nat): nat {
    if e.Try? && e.i == i && i < |s.nodes| && |s.nodes[i].work| == TXS_PER_BLOCK && Root(H, s.nodes[i].work)[0] != 0
    then 1024 else 0
  }

  lemma OthersWork(H: Sha, s: Net, e: Event, i: nat)
    requires Enabled(s, e) && i < |s.nodes| && i != e.i
    ensures |Step(H, s, e).nodes| == |s.nodes|
    ensures var n, n' := s.nodes[i], Step(H, s, e).nodes[i];
            n'.blocks == n.blocks && n'.work == n.work && n'.tries == n.tries
  {
  }

  /** The working block and its tries after a local step that left the chain at `n'.blocks`. */
  ghost predicate WorkMoves(n: Node, n': Node, accepted: seq<Transaction>, tried: nat) {
    && n'.work == (if n'.blocks != n.blocks then [] else n.work + accepted)
    && n'.tries == (if n'.blocks != n.blocks then 0 else n.tries + tried)
  }

  lemma ReceiveWork(n: Node)
    requires n.phase == Head && n.bq != [] && n.blocks != []
    ensures WorkMoves(n, HandleBlock(n).node, [], 0)
  {
    VerdictIff(n.blocks, n.voted, n.bq[0]);
    if CheckValidity(n.blocks, n.voted, n.bq[0]) == OK {
      AcceptedGoesOnTop(n);
    } else {
      RefusedChangesNothing(n);
    }
  }

  lemma AdoptWork(H: Sha, reg: Reg, n: Node)
    requires Sound(reg) && NodeInv(H, reg, n) && n.phase.Walk? && InChain(n.blocks, n.phase.current.finhash)
    ensures WorkMoves(n, Splice(n).node, [], 0)
  {
    SpliceKeeps(H, reg, n);
  }

  lemma MineWork(H: Sha, n: Node)
    requires n.phase == Mine && |n.work| == TXS_PER_BLOCK && n.blocks != []
    ensures WorkMoves(n, MineRound(H, n).node, [], if Root(H, n.work)[0] != 0 then 1024 else 0)
  {
  }

  lemma TakeWork(s: Net, e: Event)
    requires Enabled(s, e) && e.TakeVote?
    ensures WorkMoves(s.nodes[e.i], TakeTx(s.nodes[e.i]), AcceptedAt(s, e, e.i), 0)
  {
    TakesFront(s.nodes[e.i]);
  }

  lemma StillWork(H: Sha, s: Net, e: Event)
    requires Enabled(s, e) && (e.Vote? || e.Idle? || e.Ask?)
    ensures WorkMoves(s.nodes[e.i], Local(H, s, e).node, [], 0)
  {
  }

  lemma OtherStepsAccept(H: Sha, s: Net, e: Event)
    requires !e.TakeVote?
    ensures AcceptedAt(s, e, e.i) == [] && (!e.Try? ==> TriedAt(H, s, e, e.i) == 0)
  {
  }

  lemma MoversWork(H: Sha, s: Net, e: Event)
    requires Enabled(s, e) && (e.Adopt? ==> Inv(H, s))
    ensures WorkMoves(s.nodes[e.i], Local(H, s, e).node, AcceptedAt(s, e, e.i), TriedAt(H, s, e, e.i))
  {
    var n := s.nodes[e.i];
    if e.TakeVote? {
      TakeWork(s, e);
    } else {
      OtherStepsAccept(H, s, e);
      match e
      case Receive(_, _) => ReceiveWork(n);
      case Adopt(_, _) =>
        assert NodeInv(H, s.reg, n);
        AdoptWork(H, s.reg, n);
      case Try(_, _) => MineWork(H, n);
      case _ => StillWork(H, s, e);
    }
  }

  lemma WorkAt(H: Sha, r: Behaviour, k: nat, i: nat)
    requires StepAt(H, r, k) && Inv(H, r.states[k]) && i < |r.states[k].nodes|
    ensures |r.states[k + 1].nodes| == |r.states[k].nodes|
    ensures var s, e := r.states[k], r.events[k];
            WorkMoves(s.nodes[i], r.states[k + 1].nodes[i], AcceptedAt(s, e, i), TriedAt(H, s, e, i))
  {
    var s, e := r.states[k], r.events[k];
    if i == e.i {
      StepShape(H, s, e, i);
      MoversWork(H, s, e);
    } else {
      OthersWork(H, s, e, i);
    }
  }

  lemma WorkOfRun(H: Sha, size: nat, r: Behaviour, k: nat, i: nat)
    requires FromStart(H, size, r) && k < |r.events| && i < size
    ensures |r.states[k].nodes| == |r.states[k + 1].nodes| == size
    ensures var s, e := r.states[k], r.events[k];
            WorkMoves(s.nodes[i], r.states[k + 1].nodes[i], AcceptedAt(s, e, i), TriedAt(H, s, e, i))
  {
    EveryRun(H, size, r, k, i);
    WorkAt(H, r, k, i);
  }

  ghost predicate ChainMoves(r: Behaviour, k: nat, i: nat) {
    k + 1 < |r.states| && i < |r.states[k].nodes| && i < |r.states[k + 1].nodes| &&
    r.states[k + 1].nodes[i].blocks != r.states[k].nodes[i].blocks
  }

  ghost function MovesOf(r: Behaviour, i: nat): nat -> bool {
    (m: nat) => ChainMoves(r, m, i)
  }

  ghost function AcceptedBy(r: Behaviour, i: nat): nat -> seq<Transaction> {
    (m: nat) => if m < |r.events| && m < |r.states| then AcceptedAt(r.states[m], r.events[m], i) else []
  }

  ghost function TriedBy(H: Sha, r: Behaviour, i: nat): nat -> nat {
    (m: nat) => if m < |r.events| && m < |r.states| then TriedAt(H, r.states[m], r.events[m], i) else 0
  }

  /** The items of `f` since the last of the first `k` steps at which `moved` holds. */
  ghost function Since<T>(f: nat -> seq<T>, moved: nat -> bool, k: nat): seq<T> {
    if k == 0 || moved(k - 1) then [] else Since(f, moved, k - 1) + f(k - 1)
  }

  ghost function TotalSince(f: nat -> nat, moved: nat -> bool, k: nat): nat {
    if k == 0 || moved(k - 1) then 0 else TotalSince(f, moved, k - 1) + f(k - 1)
  }

  ghost function WorkOf(r: Behaviour, i: nat): nat -> seq<Transaction> {
    (m: nat) => if m < |r.states| && i < |r.states[m].nodes| then r.states[m].nodes[i].work else []
  }

  ghost function TriesOf(r: Behaviour, i: nat): nat -> nat {
    (m: nat) => if m < |r.states| && i < |r.states[m].nodes| then r.states[m].nodes[i].tries else 0
  }

  /** Step `k` starts a working block anew or adds to it. */
  ghost predicate Grows(work: nat -> seq<Transaction>, tries: nat -> nat, accepted: nat -> seq<Transaction>,
                        tried: nat -> nat, moved: nat -> bool, k: nat)
  {
    && work(k + 1) == (if moved(k) then [] else work(k) + accepted(k))
    && tries(k + 1) == (if moved(k) then 0 else tries(k) + tried(k))
  }

  lemma {:induction false} GrowsSince(work: nat -> seq<Transaction>, tries: nat -> nat, accepted: nat -> seq<Transaction>,
                                      tried: nat -> nat, moved: nat -> bool, n: nat)
    requires work(0) == [] && tries(0) == 0
    requires forall k :: 0 <= k < n ==> Grows(work, tries, accepted, tried, moved, k)
    ensures work(n) == Since(accepted, moved, n) && tries(n) == TotalSince(tried, moved, n)
    decreases n
  {
    if n > 0 {
      GrowsSince(work, tries, accepted, tried, moved, n - 1);
      assert Grows(work, tries, accepted, tried, moved, n - 1);
    }
  }

  lemma WorkGrows(H: Sha, size: nat, r: Behaviour, k: nat, i: nat)
    requires FromStart(H, size, r) && k < |r.events| && i < size
    ensures Grows(WorkOf(r, i), TriesOf(r, i), AcceptedBy(r, i), TriedBy(H, r, i), MovesOf(r, i), k)
  {
    WorkOfRun(H, size, r, k, i);
  }

  /** The working block always holds exactly the votes accepted since the chain last changed, in the
      order in which they were taken, and its count of tries is 1024 for each round since then: no
      other block outcome, failed repair or interruption touches either. */
  lemma WorkIsAcceptedSince(H: Sha, size: nat, r: Behaviour, k: nat, i: nat)
    requires FromStart(H, size, r) && k < |r.states| && i < size
    ensures i < |r.states[k].nodes|
    ensures r.states[k].nodes[i].work == Since(AcceptedBy(r, i), MovesOf(r, i), k)
    ensures r.states[k].nodes[i].tries == TotalSince(TriedBy(H, r, i), MovesOf(r, i), k)
  {
    SizeAt(H, size, r, k);
    forall m | 0 <= m < k
      ensures Grows(WorkOf(r, i), TriesOf(r, i), AcceptedBy(r, i), TriedBy(H, r, i), MovesOf(r, i), m)
    {
      WorkGrows(H, size, r, m, i);
    }
    GrowsSince(WorkOf(r, i), TriesOf(r, i), AcceptedBy(r, i), TriedBy(H, r, i), MovesOf(r, i), k);
  }

  // ----- runs: the block queue -----

  /** The block that peer `i` takes off its queue and judges. */
  ghost function HandledAt(s: Net, e: Event, i: nat): seq<Block> {
    if e.Receive? && e.i == i && i < |s.nodes| && s.nodes[i].bq != [] then [s.nodes[i].bq[0]] else []
  }

  /** A broadcast reaches the chosen peers with the mover's new head, and only a changed chain is broadcast. */
  ghost function DeliveredAt(s: Net, e: Event, s': Net, i: nat): seq<Block> {
    if i in Recipients(e) && e.i < |s.nodes| && e.i < |s'.nodes| && s'.nodes[e.i].blocks != [] &&
       s'.nodes[e.i].blocks != s.nodes[e.i].blocks then [s'.nodes[e.i].blocks[0]]
    else []
  }

  lemma MoversBlocks(H: Sha, s: Net, e: Event)
    requires Enabled(s, e)
    ensures HandledAt(s, e, e.i) + Local(H, s, e).node.bq == s.nodes[e.i].bq
    ensures e.i !in Recipients(e)
  {
    var n := s.nodes[e.i];
    if e.Receive? {
      RefusedChangesNothing(n);
      assert n.bq == [n.bq[0]] + n.bq[1..];
    }
  }

  lemma OthersBlocks(H: Sha, s: Net, e: Event, s': Net, i: nat)
    requires Next(H, s, e, s') && Inv(H, s) && i < |s.nodes| && i != e.i
    ensures |s'.nodes| == |s.nodes| && s'.nodes[i].bq == s.nodes[i].bq + DeliveredAt(s, e, s', i)
  {
    StepShape(H, s, e, i);
    StepShape(H, s, e, e.i);
    LocalKeeps(H, s, e);
  }

  lemma StepBlocks(H: Sha, s: Net, e: Event, s': Net, i: nat)
    requires Next(H, s, e, s') && Inv(H, s) && i < |s.nodes|
    ensures |s'.nodes| == |s.nodes|
    ensures HandledAt(s, e, i) + s'.nodes[i].bq == s.nodes[i].bq + DeliveredAt(s, e, s', i)
  {
    if i == e.i {
      StepShape(H, s, e, i);
      MoversBlocks(H, s, e);
    } else {
      OthersBlocks(H, s, e, s', i);
      assert HandledAt(s, e, i) == [];
    }
  }

  lemma BlocksAt(H: Sha, size: nat, r: Behaviour, k: nat, i: nat)
    requires FromStart(H, size, r) && k < |r.events| && i < size
    ensures |r.states[k + 1].nodes| == |r.states[k].nodes| == size
    ensures var s, e, s' := r.states[k], r.events[k], r.states[k + 1];
            HandledAt(s, e, i) + s'.nodes[i].bq == s.nodes[i].bq + DeliveredAt(s, e, s', i)
  {
    EveryRun(H, size, r, k, i);
    assert StepAt(H, r, k);
    StepBlocks(H, r.states[k], r.events[k], r.states[k + 1], i);
  }

  ghost function DeliveredTo(r: Behaviour, i: nat): nat -> seq<Block> {
    (m: nat) => if m < |r.events| && m + 1 < |r.states| then DeliveredAt(r.states[m], r.events[m], r.states[m + 1], i) else []
  }

  ghost function HandledBy(r: Behaviour, i: nat): nat -> seq<Block> {
    (m: nat) => if m < |r.events| && m < |r.states| then HandledAt(r.states[m], r.events[m], i) else []
  }

  ghost function BlocksOf(r: Behaviour, i: nat): nat -> seq<Block> {
    (m: nat) => if m < |r.states| && i < |r.states[m].nodes| then r.states[m].nodes[i].bq else []
  }

  lemma BlocksFlow(H: Sha, size: nat, r: Behaviour, k: nat, i: nat)
    requires FromStart(H, size, r) && k < |r.events| && i < size
    ensures Flows(DeliveredTo(r, i), HandledBy(r, i), BlocksOf(r, i), k)
  {
    BlocksAt(H, size, r, k, i);
  }

  /** Blocks are judged in the order in which they were delivered, each exactly once: no failed repair,
      refusal or reorganisation drops or reorders what is waiting. */
  lemma BlockQueueIsFifo(H: Sha, size: nat, r: Behaviour, k: nat, i: nat)
    requires FromStart(H, size, r) && k < |r.states| && i < size
    ensures i < |r.states[k].nodes|
    ensures Concat(DeliveredTo(r, i), k) == Concat(HandledBy(r, i), k) + r.states[k].nodes[i].bq
  {
    SizeAt(H, size, r, k);
    forall m | 0 <= m < k
      ensures Flows(DeliveredTo(r, i), HandledBy(r, i), BlocksOf(r, i), m)
    {
      BlocksFlow(H, size, r, m, i);
    }
    FlowIsFifo(DeliveredTo(r, i), HandledBy(r, i), BlocksOf(r, i), k);
  }

  // ----- runs: the order of the loop -----

  /** Peer `i` looks at its block queue. */
  predicate Looks(e: Event, i: nat) {
    e.i == i && (e.Receive? || e.Idle?)
  }

  predicate TakesOrTries(e: Event, i: nat, taking: bool) {
    e.i == i && (if taking then e.TakeVote? else e.Try?)
  }

  /** Between a take (or a round of tries) and the next look the thread is past that point of the loop. */
  ghost predicate Past(n: Node, taking: bool) {
    n.phase == Head || n.phase == Aborted || (taking && n.phase == Mine)
  }

  lemma StaysPast(H: Sha, r: Behaviour, k: nat, i: nat, taking: bool)
    requires StepAt(H, r, k) && i < |r.states[k].nodes|
    requires TakesOrTries(r.events[k], i, taking) || (Past(r.states[k].nodes[i], taking) && !Looks(r.events[k], i))
    ensures |r.states[k + 1].nodes| == |r.states[k].nodes| && Past(r.states[k + 1].nodes[i], taking)
  {
    var s, e := r.states[k], r.events[k];
    StepShape(H, s, e, i);
    if e.TakeVote? && e.i == i {
      TakesFront(s.nodes[i]);
    }
  }

  lemma {:induction false} PastUntilLook(H: Sha, size: nat, r: Behaviour, k: nat, l: nat, i: nat, taking: bool)
    requires FromStart(H, size, r) && k < l < |r.states| && i < size && TakesOrTries(r.events[k], i, taking)
    requires forall m :: k < m < l ==> !Looks(r.events[m], i)
    ensures i < |r.states[l].nodes| && Past(r.states[l].nodes[i], taking)
    decreases l
  {
    SizeAt(H, size, r, l);
    SizeAt(H, size, r, l - 1);
    if k < l - 1 {
      PastUntilLook(H, size, r, k, l - 1, i, taking);
    }
    StaysPast(H, r, l - 1, i, taking);
  }

  lemma NotPast(H: Sha, r: Behaviour, k: nat, i: nat, taking: bool)
    requires StepAt(H, r, k) && TakesOrTries(r.events[k], i, taking)
    ensures i < |r.states[k].nodes| && !Past(r.states[k].nodes[i], taking)
  {
  }

  /** A peer never takes two votes, nor tries two rounds of nonces, without looking at its block queue in
      between: new blocks get their turn in every pass of the loop. */
  lemma LooksAtBlocksInBetween(H: Sha, size: nat, r: Behaviour, k: nat, l: nat, i: nat, taking: bool)
    requires FromStart(H, size, r) && k < l < |r.events| && i < size
    requires TakesOrTries(r.events[k], i, taking) && TakesOrTries(r.events[l], i, taking)
    ensures exists m :: k < m < l && Looks(r.events[m], i)
  {
    NotPast(H, r, l, i, taking);
    if forall m :: k < m < l ==> !Looks(r.events[m], i) {
      PastUntilLook(H, size, r, k, l, i, taking);
    }
  }
}
