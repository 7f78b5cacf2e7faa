/** Without further mining, block traffic dies out: the number of block-handling steps that any
    run can still take is bounded by a number computed from the state. */
module Flooding {
  import opened Ledger
  import opened Registry
  import opened Hashing
  import opened NodeModel
  import opened NodeSafety
  import opened Network

  // ----- no block is higher than the registry is large -----

  ghost function HashSet(chain: seq<Block>, k: nat): set<Digest>
    requires k <= |chain|
  {
    set i | 0 <= i < k :: chain[i].finhash
  }

  lemma {:induction false} HashSetSize(reg: Reg, h: Digest, k: nat)
    requires Linked(reg) && h in reg && k <= |Ancestry(reg, h)|
    ensures HashSet(Ancestry(reg, h), k) <= reg.Keys && |HashSet(Ancestry(reg, h), k)| == k
    decreases k
  {
    var chain := Ancestry(reg, h);
    if k > 0 {
      HashSetSize(reg, h, k - 1);
      AncestrySuffix(reg, h, k - 1);
      forall i | 0 <= i < k - 1
        ensures chain[i].finhash != chain[k - 1].finhash
      {
        AncestrySuffix(reg, h, i);
      }
      assert HashSet(chain, k) == HashSet(chain, k - 1) + {chain[k - 1].finhash};
    } else {
      assert HashSet(chain, 0) == {};
    }
  }

  lemma SubsetSize<T>(a: set<T>, b: set<T>)
    requires a <= b
    ensures |a| <= |b|
  {
    assert b == a + (b - a);
  }

  lemma HeightBound(reg: Reg, h: Digest)
    requires Linked(reg) && h in reg
    ensures reg[h].number <= |reg|
  {
    HashSetSize(reg, h, reg[h].number);
    SubsetSize(HashSet(Ancestry(reg, h), reg[h].number), reg.Keys);
    assert |reg.Keys| == |reg|;
  }

  // ----- the potential -----

  /** What one queued block can cost: handling it and walking down at most to genesis. */
  function BlockCost(top: nat): nat {
    top + 1
  }

  ghost function Gap(top: nat, n: Node): nat {
    if n.blocks == [] || n.blocks[0].number > top then 0 else top - n.blocks[0].number
  }

  ghost function WalkCost(n: Node): nat {
    if n.phase.Walk? then n.phase.current.number else 0
  }

  /** Each level a chain may still climb can cause a broadcast to `MAX_PEERS` peers. */
  ghost function NodePotential(top: nat, n: Node): nat {
    Gap(top, n) * (MAX_PEERS * BlockCost(top)) + |n.bq| * BlockCost(top) + WalkCost(n)
  }

  ghost function Total(top: nat, nodes: seq<Node>): nat {
    if nodes == [] then 0 else NodePotential(top, nodes[0]) + Total(top, nodes[1..])
  }

  ghost function Potential(s: Net): nat {
    Total(|s.reg|, s.nodes)
  }

  lemma {:induction false} TotalUpdate(top: nat, nodes: seq<Node>, i: nat, n: Node)
    requires i < |nodes|
    ensures Total(top, nodes[i := n]) == Total(top, nodes) - NodePotential(top, nodes[i]) + NodePotential(top, n)
    decreases i
  {
    if i == 0 {
      assert nodes[0 := n][1..] == nodes[1..];
    } else {
      assert nodes[i := n][1..] == nodes[1..][i - 1 := n];
      TotalUpdate(top, nodes[1..], i - 1, n);
    }
  }

  /** A broadcast costs at most one queued block per recipient. */
  lemma {:induction false} TotalDelivered(top: nat, nodes: seq<Node>, to: set<nat>, b: Block)
    requires forall j :: j in to ==> j < |nodes|
    ensures Total(top, DeliverBlock(nodes, to, Some(b))) == Total(top, nodes) + |to| * BlockCost(top)
    decreases |to|
  {
    if to == {} {
      assert DeliverBlock(nodes, to, Some(b)) == nodes;
    } else {
      var j :| j in to;
      TotalDelivered(top, nodes, to - {j}, b);
      OneMoreRecipient(top, nodes, to, b, j);
      OneMoreBlock(|to - {j}|, BlockCost(top));
    }
  }

  lemma OneMoreRecipient(top: nat, nodes: seq<Node>, to: set<nat>, b: Block, j: nat)
    requires j in to && j < |nodes|
    ensures Total(top, DeliverBlock(nodes, to, Some(b))) ==
            Total(top, DeliverBlock(nodes, to - {j}, Some(b))) + BlockCost(top)
  {
    var before := DeliverBlock(nodes, to - {j}, Some(b));
    var after := nodes[j].(bq := nodes[j].bq + [b]);
    assert before[j] == nodes[j];
    assert DeliverBlock(nodes, to, Some(b)) == before[j := after];
    TotalUpdate(top, before, j, after);
    QueueOne(top, nodes[j], b);
  }

  lemma OneMoreBlock(q: nat, c: nat)
    ensures (q + 1) * c == q * c + c
  {
  }

  lemma QueueOne(top: nat, n: Node, b: Block)
    ensures NodePotential(top, n.(bq := n.bq + [b])) == NodePotential(top, n) + BlockCost(top)
  {
    OneMoreBlock(|n.bq|, BlockCost(top));
  }

  // ----- one step -----

  predicate BlockStep(e: Event) {
    e.Receive? || e.Ask? || e.Adopt?
  }

  ghost predicate Publishes(H: Sha, s: Net, e: Event)
    requires Enabled(s, e)
  {
    e.Try? && Local(H, s, e).sent.Some?
  }

  /** Arithmetic of a growing step: the level gained pays for the whole broadcast. */
  lemma ClimbPays(g: nat, g': nat, peers: nat, c: nat)
    requires g' < g && peers <= MAX_PEERS
    ensures g' * (MAX_PEERS * c) + peers * c <= g * (MAX_PEERS * c)
  {
    var m := MAX_PEERS * c;
    assert (g' + 1) * m <= g * m;
    assert peers * c <= m;
  }

  /** A chain that climbed by this step pays for telling `peers` others. */
  lemma ClimbCost(H: Sha, reg: Reg, n: Node, n': Node, peers: nat)
    requires Linked(reg) && NodeInv(H, reg, n) && NodeInv(H, reg, n') && peers <= MAX_PEERS
    requires n'.blocks[0].number > n.blocks[0].number
    ensures var top := |reg|;
            Gap(top, n') * (MAX_PEERS * BlockCost(top)) + peers * BlockCost(top)
            <= Gap(top, n) * (MAX_PEERS * BlockCost(top))
  {
    HeightBound(reg, n.blocks[0].finhash);
    HeightBound(reg, n'.blocks[0].finhash);
    ClimbPays(Gap(|reg|, n), Gap(|reg|, n'), peers, BlockCost(|reg|));
  }

  /** Ignoring a block or starting to walk towards it uses up the cost of one queued block. */
  lemma PopCost(top: nat, n: Node, n': Node)
    requires n.bq != [] && |n'.bq| == |n.bq| - 1 && n'.blocks == n.blocks
    requires WalkCost(n) == 0 && WalkCost(n') <= top
    ensures NodePotential(top, n') + 1 <= NodePotential(top, n)
  {
    OneMoreBlock(|n.bq| - 1, BlockCost(top));
  }

  lemma AcceptCost(H: Sha, reg: Reg, n: Node, n': Node, peers: nat)
    requires Linked(reg) && NodeInv(H, reg, n) && NodeInv(H, reg, n') && peers <= MAX_PEERS
    requires n'.blocks[0].number > n.blocks[0].number && WalkCost(n') == 0
    requires n.bq != [] && |n'.bq| == |n.bq| - 1
    ensures NodePotential(|reg|, n') + peers * BlockCost(|reg|) + 1 <= NodePotential(|reg|, n)
  {
    ClimbCost(H, reg, n, n', peers);
    OneMoreBlock(|n.bq| - 1, BlockCost(|reg|));
  }

  lemma ReceiveCost(H: Sha, reg: Reg, n: Node, peers: nat)
    requires Sound(reg) && NodeInv(H, reg, n) && n.phase == Head && n.bq != [] && peers <= MAX_PEERS
    ensures var top := |reg|;
            var r := HandleBlock(n);
            NodePotential(top, r.node) + (if r.sent.Some? then peers * BlockCost(top) else 0) + 1
            <= NodePotential(top, n)
  {
    var r := HandleBlock(n);
    HandleBlockKeeps(H, reg, n);
    if r.sent.Some? {
      AcceptCost(H, reg, n, r.node, peers);
    } else {
      PopBlockKeeps(H, reg, n);
      HeightBound(reg, n.bq[0].finhash);
      PopCost(|reg|, n, r.node);
    }
  }

  lemma AskCost(reg: Reg, n: Node, answer: Option<Block>)
    requires Linked(reg) && ChainInv(reg, n) && WalkInv(reg, n) && n.phase.Walk?
    requires !InChain(n.blocks, n.phase.current.finhash)
    requires answer.Some? ==> Holds(reg, answer.value) && answer.value.finhash == n.phase.current.prev
    ensures NodePotential(|reg|, Fetch(n, answer)) + 1 <= NodePotential(|reg|, n)
  {
    assert LinkOk(reg, n.phase.current.finhash);
    if answer.Some? {
      FetchWalks(reg, n, answer.value);
    }
  }

  lemma AdoptCost(H: Sha, reg: Reg, n: Node, peers: nat)
    requires Sound(reg) && NodeInv(H, reg, n) && n.phase.Walk? && peers <= MAX_PEERS
    requires InChain(n.blocks, n.phase.current.finhash)
    ensures var top := |reg|;
            NodePotential(top, Splice(n).node) + peers * BlockCost(top) + 1 <= NodePotential(top, n)
  {
    SpliceKeeps(H, reg, n);
    ReorganiseIsRepair(reg, n);
    assert LinkOk(reg, n.phase.current.finhash);
    ClimbCost(H, reg, n, Splice(n).node, peers);
  }

  /** Votes, idling and unsuccessful mining touch neither the chain nor the block queue. */
  lemma QuietCost(H: Sha, s: Net, e: Event)
    requires Enabled(s, e) && !BlockStep(e) && !Publishes(H, s, e)
    ensures Local(H, s, e).sent.None?
    ensures NodePotential(|s.reg|, Local(H, s, e).node) <= NodePotential(|s.reg|, s.nodes[e.i])
  {
    var n, n' := s.nodes[e.i], Local(H, s, e).node;
    assert n'.blocks == n.blocks && n'.bq == n.bq && WalkCost(n') == WalkCost(n);
  }

  lemma LocalCost(H: Sha, s: Net, e: Event)
    requires Inv(H, s) && Enabled(s, e) && DistinctHashes(H, s, e) && !Publishes(H, s, e)
    ensures var top := |s.reg|;
            var r := Local(H, s, e);
            var c := if r.sent.Some? then |Recipients(e)| * BlockCost(top) else 0;
            NodePotential(top, r.node) + c + (if BlockStep(e) then 1 else 0) <= NodePotential(top, s.nodes[e.i])
  {
    var n := s.nodes[e.i];
    assert NodeInv(H, s.reg, n);
    match e
    case Receive(_, to) => ReceiveCost(H, s.reg, n, |to|);
    case Ask(_, source) =>
      AnswerIsHeld(H, s, source, n.phase.current.prev);
      AskCost(s.reg, n, Answer(s, source, n.phase.current.prev));
    case Adopt(_, to) => AdoptCost(H, s.reg, n, |to|);
    case _ => QuietCost(H, s, e);
  }

  /** Forwarded votes leave the potential alone. */
  lemma {:induction false} TotalSame(top: nat, a: seq<Node>, b: seq<Node>)
    requires |a| == |b| && forall j :: 0 <= j < |a| ==> NodePotential(top, a[j]) == NodePotential(top, b[j])
    ensures Total(top, a) == Total(top, b)
    decreases |a|
  {
    if a != [] {
      assert NodePotential(top, a[0]) == NodePotential(top, b[0]);
      forall j | 0 <= j < |a[1..]|
        ensures NodePotential(top, a[1..][j]) == NodePotential(top, b[1..][j])
      {
        assert a[1..][j] == a[j + 1] && b[1..][j] == b[j + 1];
      }
      TotalSame(top, a[1..], b[1..]);
    }
  }

  ghost function Moved(H: Sha, s: Net, e: Event): seq<Node>
    requires Enabled(s, e)
  {
    DeliverBlock(s.nodes[e.i := Local(H, s, e).node], Recipients(e), Local(H, s, e).sent)
  }

  lemma StepIsMoved(H: Sha, s: Net, e: Event, top: nat)
    requires Enabled(s, e)
    ensures Total(top, Step(H, s, e).nodes) == Total(top, Moved(H, s, e))
  {
    var a, b := Step(H, s, e).nodes, Moved(H, s, e);
    forall j | 0 <= j < |a|
      ensures NodePotential(top, a[j]) == NodePotential(top, b[j])
    {
      StepShape(H, s, e, j);
    }
    TotalSame(top, a, b);
  }

  /** Every block-handling step lowers the potential; no other step but publishing raises it. */
  lemma StepLowersPotential(H: Sha, s: Net, e: Event)
    requires Inv(H, s) && Enabled(s, e) && DistinctHashes(H, s, e) && !Publishes(H, s, e)
    ensures Step(H, s, e).reg == s.reg
    ensures Potential(Step(H, s, e)) + (if BlockStep(e) then 1 else 0) <= Potential(s)
  {
    var top := |s.reg|;
    var r := Local(H, s, e);
    LocalKeeps(H, s, e);
    StepShape(H, s, e, e.i);
    assert Step(H, s, e).reg == s.reg;
    LocalCost(H, s, e);
    StepIsMoved(H, s, e, top);
    TotalUpdate(top, s.nodes, e.i, r.node);
    if r.sent.Some? {
      TotalDelivered(top, s.nodes[e.i := r.node], Recipients(e), r.sent.value);
    }
  }

  // ----- whole runs -----

  ghost predicate PublishesAt(H: Sha, r: Behaviour, k: nat) {
    StepAt(H, r, k) && Publishes(H, r.states[k], r.events[k])
  }

  /** Nobody publishes in the first `k` steps. */
  ghost predicate NoPublishing(H: Sha, r: Behaviour, k: nat) {
    forall j :: 0 <= j < k ==> !PublishesAt(H, r, j)
  }

  /** How many of the first `k` steps handle, fetch or adopt a block. */
  function BlockSteps(es: seq<Event>, k: nat): nat
    requires k <= |es|
  {
    if k == 0 then 0 else BlockSteps(es, k - 1) + if BlockStep(es[k - 1]) then 1 else 0
  }

  lemma QuietStepAt(H: Sha, r: Behaviour, k: nat)
    requires IsRun(H, r) && Inv(H, r.states[0]) && k < |r.events| && !PublishesAt(H, r, k)
    ensures r.states[k + 1].reg == r.states[k].reg
    ensures Potential(r.states[k + 1]) + (if BlockStep(r.events[k]) then 1 else 0) <= Potential(r.states[k])
  {
    RunInv(H, r, k);
    assert StepAt(H, r, k);
    StepLowersPotential(H, r.states[k], r.events[k]);
  }

  /** Flooding terminates: from any state with the invariant, as long as nobody publishes, a run takes
      at most `Potential` of that state many block-handling steps, however it is scheduled. */
  lemma {:induction false} FloodingTerminates(H: Sha, r: Behaviour, k: nat)
    requires IsRun(H, r) && Inv(H, r.states[0]) && k <= |r.events| && NoPublishing(H, r, k)
    ensures Potential(r.states[k]) + BlockSteps(r.events, k) <= Potential(r.states[0])
    ensures r.states[k].reg == r.states[0].reg
    decreases k
  {
    if k > 0 {
      FloodingTerminates(H, r, k - 1);
      QuietStepAt(H, r, k - 1);
    }
  }
}
