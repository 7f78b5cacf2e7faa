/** With reliable calls between mutual peers, a network that has gone quiet is level: any two
    peers joined by a path of peers have chains of one height. */
module Convergence {
  import opened Ledger
  import opened Registry
  import opened Hashing
  import opened NodeModel
  import opened NodeSafety
  import opened Network
  import opened Guarantees

  /** Who has whom in the peer list. */
  type Graph = seq<set<nat>>

  /** Peers are mutual (`GetAddr` adds the caller) and nobody lists itself. */
  ghost predicate Mutual(g: Graph) {
    forall i, j :: 0 <= i < |g| && j in g[i] ==> j < |g| && j != i && i in g[j]
  }

  /** Broadcasts reach all peers; a fetch fails only if no peer has the block; no node aborts. */
  ghost predicate Reliable(H: Sha, g: Graph, s: Net, e: Event)
    requires Enabled(s, e) && |g| == |s.nodes|
  {
    match e
    case Receive(i, to) => to == g[i]
    case Adopt(i, to) => to == g[i]
    case Try(i, to) => to == g[i] && Root(H, s.nodes[i].work)[0] != 0
    case Ask(i, source) =>
      var h := s.nodes[i].phase.current.prev;
      (source.Some? ==> source.value in g[i]) &&
      (source.None? ==> forall j :: j in g[i] && j < |s.nodes| ==> !InChain(s.nodes[j].blocks, h))
    case _ => true
  }

  ghost predicate ReliableRun(H: Sha, g: Graph, r: Behaviour) {
    && IsRun(H, r)
    && forall k {:trigger StepAt(H, r, k)} :: 0 <= k < |r.events| && StepAt(H, r, k) ==>
         |g| == |r.states[k].nodes| && Reliable(H, g, r.states[k], r.events[k])
  }

  /** The block waits in the queue or is the target of a repair under way. */
  ghost predicate Pending(n: Node, b: Block) {
    b in n.bq || (n.phase.Walk? && n.phase.target == b)
  }

  /** Across the edge from `a` to `b`: `b` is as high as `a`, or `a`'s head is on its way. */
  ghost predicate EdgeOk(a: Node, b: Node) {
    a.blocks != [] && b.blocks != [] && (b.blocks[0].number >= a.blocks[0].number || Pending(b, a.blocks[0]))
  }

  ghost predicate Converging(g: Graph, s: Net) {
    && |g| == |s.nodes|
    && forall i, j :: 0 <= i < |g| && j in g[i] && j < |g| ==> EdgeOk(s.nodes[i], s.nodes[j])
  }

  // ----- one edge, one step -----

  lemma ReceiveEdge(H: Sha, reg: Reg, a: Node, b: Node)
    requires Sound(reg) && NodeInv(H, reg, b) && EdgeOk(a, b) && b.phase == Head && b.bq != []
    ensures EdgeOk(a, HandleBlock(b).node)
  {
    HandleBlockKeeps(H, reg, b);
    var h := a.blocks[0];
    if h in b.bq && h != b.bq[0] {
      assert h in b.bq[1..];
    }
  }

  /** A neighbour whose head is the target of the walk has the parent that the walk asks for. */
  lemma NeighbourHasParent(H: Sha, reg: Reg, a: Node, b: Node)
    requires Linked(reg) && NodeInv(H, reg, a) && NodeInv(H, reg, b)
    requires b.phase.Walk? && b.phase.target == a.blocks[0]
    requires !InChain(b.blocks, b.phase.current.finhash)
    ensures InChain(a.blocks, b.phase.current.prev)
  {
    FetchIsAboveGenesis(reg, b);
    var c := b.phase.current;
    var k := |b.phase.toAdd|;
    assert a.blocks == b.phase.toAdd + Ancestry(reg, c.finhash);
    assert Ancestry(reg, c.finhash) == [c] + Ancestry(reg, c.prev);
    assert a.blocks[k + 1] == Ancestry(reg, c.prev)[0] == reg[c.prev];
    assert LinkOk(reg, c.prev);
  }

  lemma AskEdge(H: Sha, s: Net, e: Event, i: nat)
    requires Inv(H, s) && Enabled(s, e) && e.Ask? && i < |s.nodes|
    requires EdgeOk(s.nodes[i], s.nodes[e.i])
    requires e.source.None? ==> !InChain(s.nodes[i].blocks, s.nodes[e.i].phase.current.prev)
    ensures EdgeOk(s.nodes[i], Local(H, s, e).node)
  {
    assert NodeInv(H, s.reg, s.nodes[i]);
    assert NodeInv(H, s.reg, s.nodes[e.i]);
    var a, b := s.nodes[i], s.nodes[e.i];
    if b.phase.target == a.blocks[0] {
      NeighbourHasParent(H, s.reg, a, b);
    }
  }

  lemma AdoptEdge(H: Sha, reg: Reg, a: Node, b: Node)
    requires Sound(reg) && NodeInv(H, reg, b) && EdgeOk(a, b)
    requires b.phase.Walk? && InChain(b.blocks, b.phase.current.finhash)
    ensures EdgeOk(a, Splice(b).node)
  {
    SpliceKeeps(H, reg, b);
    ReorganiseIsRepair(reg, b);
  }

  lemma TryEdge(H: Sha, reg: Reg, a: Node, b: Node)
    requires Sound(reg) && Honest(H, reg) && NodeInv(H, reg, b) && EdgeOk(a, b)
    requires b.phase == Mine && FreshHash(H, reg, b)
    ensures EdgeOk(a, MineRound(H, b).node)
  {
    MineRoundKeeps(H, reg, b);
  }

  /** The receiving end of an edge moves. */
  lemma ReceiverKeepsEdge(H: Sha, g: Graph, s: Net, e: Event, i: nat)
    requires Inv(H, s) && Enabled(s, e) && DistinctHashes(H, s, e) && |g| == |s.nodes| && Reliable(H, g, s, e)
    requires i < |g| && i in g[e.i] && EdgeOk(s.nodes[i], s.nodes[e.i])
    ensures EdgeOk(s.nodes[i], Local(H, s, e).node)
  {
    var b := s.nodes[e.i];
    assert NodeInv(H, s.reg, b);
    match e
    case Receive(_, _) => ReceiveEdge(H, s.reg, s.nodes[i], b);
    case Ask(_, _) => AskEdge(H, s, e, i);
    case Adopt(_, _) => AdoptEdge(H, s.reg, s.nodes[i], b);
    case Try(_, _) => TryEdge(H, s.reg, s.nodes[i], b);
    case _ =>
  }

  /** Longer queues and unchanged chains keep an edge. */
  lemma EdgeGrows(a: Node, b: Node, a': Node, b': Node)
    requires EdgeOk(a, b)
    requires a'.blocks == a.blocks && b'.blocks == b.blocks && b'.phase == b.phase
    requires forall x :: x in b.bq ==> x in b'.bq
    ensures EdgeOk(a', b')
  {
  }

  /** The sending end of an edge moves: a new head goes out with the step. */
  lemma SenderKeepsEdge(H: Sha, g: Graph, s: Net, e: Event, j: nat)
    requires Inv(H, s) && Enabled(s, e) && DistinctHashes(H, s, e) && |g| == |s.nodes| && Reliable(H, g, s, e)
    requires j < |g| && j != e.i && j in g[e.i] && EdgeOk(s.nodes[e.i], s.nodes[j])
    ensures var s' := Step(H, s, e);
            |s'.nodes| == |g| && EdgeOk(s'.nodes[e.i], s'.nodes[j])
  {
    var r := Local(H, s, e);
    LocalKeeps(H, s, e);
    StepShape(H, s, e, e.i);
    StepShape(H, s, e, j);
    if r.sent.Some? {
      assert Recipients(e) == g[e.i];
      assert r.sent.value in Step(H, s, e).nodes[j].bq;
    } else {
      EdgeGrows(s.nodes[e.i], s.nodes[j], Step(H, s, e).nodes[e.i], Step(H, s, e).nodes[j]);
    }
  }

  lemma StepKeepsEdge(H: Sha, g: Graph, s: Net, e: Event, i: nat, j: nat)
    requires Inv(H, s) && Enabled(s, e) && DistinctHashes(H, s, e) && |g| == |s.nodes| && Reliable(H, g, s, e)
    requires i < |g| && j < |g| && i != j && j in g[i] && i in g[j] && EdgeOk(s.nodes[i], s.nodes[j])
    ensures var s' := Step(H, s, e);
            |s'.nodes| == |g| && EdgeOk(s'.nodes[i], s'.nodes[j])
  {
    if e.i == i {
      SenderKeepsEdge(H, g, s, e, j);
    } else {
      StepShape(H, s, e, i);
      StepShape(H, s, e, j);
      if e.i == j {
        ReceiverKeepsEdge(H, g, s, e, i);
      } else {
        EdgeGrows(s.nodes[i], s.nodes[j], Step(H, s, e).nodes[i], Step(H, s, e).nodes[j]);
      }
    }
  }

  lemma StepConverges(H: Sha, g: Graph, s: Net, e: Event)
    requires Inv(H, s) && Enabled(s, e) && DistinctHashes(H, s, e)
    requires Mutual(g) && Converging(g, s) && Reliable(H, g, s, e)
    ensures Converging(g, Step(H, s, e))
  {
    var s' := Step(H, s, e);
    StepShape(H, s, e, e.i);
    forall i, j | 0 <= i < |g| && j in g[i] && j < |g|
      ensures EdgeOk(s'.nodes[i], s'.nodes[j])
    {
      StepKeepsEdge(H, g, s, e, i, j);
    }
  }

  lemma ConvergesAt(H: Sha, g: Graph, r: Behaviour, k: nat)
    requires ReliableRun(H, g, r) && Inv(H, r.states[0]) && Mutual(g) && k < |r.events|
    requires Converging(g, r.states[k])
    ensures Converging(g, r.states[k + 1])
  {
    RunInv(H, r, k);
    assert StepAt(H, r, k);
    StepConverges(H, g, r.states[k], r.events[k]);
  }

  lemma {:induction false} RunConverges(H: Sha, g: Graph, r: Behaviour, k: nat)
    requires ReliableRun(H, g, r) && Inv(H, r.states[0]) && Mutual(g) && Converging(g, r.states[0])
    requires k < |r.states|
    ensures Converging(g, r.states[k])
    decreases k
  {
    if k > 0 {
      RunConverges(H, g, r, k - 1);
      ConvergesAt(H, g, r, k - 1);
    }
  }

  // ----- quiet networks -----

  /** No block waits anywhere and no repair is under way. */
  ghost predicate Quiet(s: Net) {
    forall i :: 0 <= i < |s.nodes| ==> s.nodes[i].bq == [] && !s.nodes[i].phase.Walk?
  }

  ghost predicate Path(g: Graph, p: seq<nat>) {
    && p != [] && (forall k :: 0 <= k < |p| ==> p[k] < |g|)
    && forall k, l :: 0 <= k < l < |p| && l == k + 1 ==> p[l] in g[p[k]]
  }

  ghost function HeightOf(s: Net, i: nat): nat
    requires i < |s.nodes|
  {
    if s.nodes[i].blocks == [] then 0 else s.nodes[i].blocks[0].number
  }

  lemma {:induction false} QuietIsLevel(g: Graph, s: Net, p: seq<nat>)
    requires Mutual(g) && Converging(g, s) && Quiet(s) && Path(g, p)
    ensures HeightOf(s, p[0]) == HeightOf(s, p[|p| - 1])
    decreases |p|
  {
    if |p| > 1 {
      var a, b := p[0], p[1];
      assert b in g[a] && a in g[b];
      assert EdgeOk(s.nodes[a], s.nodes[b]) && EdgeOk(s.nodes[b], s.nodes[a]);
      assert HeightOf(s, a) == HeightOf(s, b);
      QuietIsLevel(g, s, p[1..]);
    }
  }

  /** Main result: whatever was mined and however the steps were interleaved, whenever a reliable
      network is quiet, all peers connected to each other have chains of the same height. */
  lemma NetworkLevels(H: Sha, g: Graph, size: nat, r: Behaviour, k: nat, p: seq<nat>)
    requires FromStart(H, size, r) && Mutual(g) && |g| == size && ReliableRun(H, g, r)
    requires k < |r.states| && Quiet(r.states[k]) && Path(g, p)
    ensures |r.states[k].nodes| == size
    ensures HeightOf(r.states[k], p[0]) == HeightOf(r.states[k], p[|p| - 1])
  {
    StartInv(H, size);
    assert Converging(g, Start(size));
    RunConverges(H, g, r, k);
    QuietIsLevel(g, r.states[k], p);
  }
}
