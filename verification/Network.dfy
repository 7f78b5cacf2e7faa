/** Any number of peers, interleaved phase by phase. Every block comes from the mining phase
    of some peer; delivery may reach any few peers; a parent may be fetched from any peer that
    has it at that moment, or from nobody. */
module Network {
  import opened Ledger
  import opened Registry
  import opened Hashing
  import opened NodeModel
  import opened NodeSafety

  /** `reg` (the blocks ever mined) is history: what a node does never depends on it. */
  datatype Net = Net(nodes: seq<Node>, reg: Reg)

  /** `i` is the peer that moves; `to` are the peers its broadcast reaches. */
  datatype Event =
    | Vote(i: nat, t: Transaction)
    | Idle(i: nat)
    | Receive(i: nat, to: set<nat>)
    | Ask(i: nat, source: Option<nat>)
    | Adopt(i: nat, to: set<nat>)
    | TakeVote(i: nat, to: set<nat>)
    | Try(i: nat, to: set<nat>)

  ghost predicate Reaches(s: Net, i: nat, to: set<nat>) {
    i !in to && |to| <= MAX_PEERS && forall j :: j in to ==> j < |s.nodes| && s.nodes[j].phase != Aborted
  }

  ghost predicate Enabled(s: Net, e: Event) {
    && e.i < |s.nodes|
    && var n := s.nodes[e.i];
       n.blocks != [] &&
       match e
       case Vote(_, _) => n.phase != Aborted
       case Idle(_) => n.phase == Head && n.bq == []
       case Receive(i, to) => n.phase == Head && n.bq != [] && Reaches(s, i, to)
       case Ask(i, source) =>
         n.phase.Walk? && !InChain(n.blocks, n.phase.current.finhash) &&
         (source.Some? ==>
            source.value != i && source.value < |s.nodes| && s.nodes[source.value].phase != Aborted &&
            InChain(s.nodes[source.value].blocks, n.phase.current.prev))
       case Adopt(i, to) => n.phase.Walk? && InChain(n.blocks, n.phase.current.finhash) && Reaches(s, i, to)
       case TakeVote(i, to) => n.phase == Take && (n.quotafull || n.tq != []) && Reaches(s, i, to)
       case Try(i, to) => n.phase == Mine && |n.work| == TXS_PER_BLOCK && Reaches(s, i, to)
  }

  /** The stated assumption that distinct blocks have distinct hashes; it speaks of mining only. */
  ghost predicate DistinctHashes(H: Sha, s: Net, e: Event)
    requires Enabled(s, e)
  {
    e.Try? ==> FreshHash(H, s.reg, s.nodes[e.i])
  }

  function DeliverBlock(nodes: seq<Node>, to: set<nat>, sent: Option<Block>): (r: seq<Node>)
    ensures |r| == |nodes|
  {
    if sent.None? then nodes
    else seq(|nodes|, j requires 0 <= j < |nodes| =>
               if j in to then nodes[j].(bq := nodes[j].bq + [sent.value]) else nodes[j])
  }

  function DeliverVote(nodes: seq<Node>, to: set<nat>, t: Transaction): (r: seq<Node>)
    ensures |r| == |nodes|
  {
    seq(|nodes|, j requires 0 <= j < |nodes| =>
          if j in to then nodes[j].(tq := nodes[j].tq + [t]) else nodes[j])
  }

  /** The block a peer answers `GetBlock` with. */
  function Answer(s: Net, source: Option<nat>, h: Digest): Option<Block>
    requires source.Some? ==> source.value < |s.nodes| && InChain(s.nodes[source.value].blocks, h)
  {
    if source.None? then None
    else
      var blocks := s.nodes[source.value].blocks;
      IndexOfIsFirst(blocks, h);
      Some(blocks[IndexOf(blocks, h)])
  }

  ghost function Move(s: Net, i: nat, r: Result, to: set<nat>): Net
    requires i < |s.nodes|
  {
    s.(nodes := DeliverBlock(s.nodes[i := r.node], to, r.sent), reg := Record(s.reg, r.sent))
  }

  /** The vote that a `TakeVote` step accepts into the working block and forwards. */
  function Forwarded(n: Node): Option<Transaction> {
    if n.quotafull || n.tq == [] || n.tq[0].key in n.voted || n.tq[0].key in Keys(n.work) then None
    else Some(n.tq[0])
  }

  ghost function Step(H: Sha, s: Net, e: Event): Net
    requires Enabled(s, e)
  {
    var n := s.nodes[e.i];
    match e
    case Vote(i, t) =>
      s.(nodes := DeliverVote(s.nodes, {i}, t))
    case Idle(i) => s.(nodes := s.nodes[i := n.(phase := Take)])
    case Receive(i, to) => Move(s, i, HandleBlock(n), to)
    case Ask(i, source) =>
      s.(nodes := s.nodes[i := Fetch(n, Answer(s, source, n.phase.current.prev))])
    case Adopt(i, to) => Move(s, i, Splice(n), to)
    case TakeVote(i, to) =>
      var moved := s.(nodes := s.nodes[i := TakeTx(n)]);
      var t := Forwarded(n);
      if t.None? then moved
      else moved.(nodes := DeliverVote(moved.nodes, to, t.value))
    case Try(i, to) => Move(s, i, MineRound(H, n), to)
  }

  ghost predicate Next(H: Sha, s: Net, e: Event, s': Net) {
    Enabled(s, e) && DistinctHashes(H, s, e) && s' == Step(H, s, e)
  }

  /** The states of a run and the events between them. */
  datatype Behaviour = Behaviour(states: seq<Net>, events: seq<Event>)

  ghost predicate StepAt(H: Sha, r: Behaviour, k: nat) {
    k < |r.events| && k + 1 < |r.states| && Next(H, r.states[k], r.events[k], r.states[k + 1])
  }

  /** Every step is enabled and every mining step respects the hash assumption. */
  ghost predicate IsRun(H: Sha, r: Behaviour) {
    && |r.states| == |r.events| + 1
    && forall k {:trigger StepAt(H, r, k)} :: 0 <= k < |r.events| ==> StepAt(H, r, k)
  }

  ghost function Start(size: nat): Net {
    Net(seq(size, _ => INITIAL), map[GENESIS_HASH := GENESIS])
  }

  // ----- the invariant of every reachable state -----

  ghost predicate Inv(H: Sha, s: Net) {
    && Sound(s.reg) && Honest(H, s.reg)
    && forall j :: 0 <= j < |s.nodes| ==> NodeInv(H, s.reg, s.nodes[j])
  }

  lemma NoVotesNoKeys(chain: seq<Block>)
    requires |chain| == 1 && chain[0].txs == []
    ensures UniqueKeys(chain) && ChainKeys(chain) == {}
  {
    assert ChainKeys(chain[1..]) == {};
    assert Keys(chain[0].txs) == {};
  }

  lemma StartInv(H: Sha, size: nat)
    ensures Inv(H, Start(size))
  {
    var reg: Reg := map[GENESIS_HASH := GENESIS];
    assert LinkOk(reg, GENESIS_HASH);
    assert Linked(reg);
    NoVotesNoKeys([GENESIS]);
    assert OneVoteAt(reg, GENESIS_HASH);
    assert NodeInv(H, reg, INITIAL);
  }

  lemma DeliveredBlockKeeps(H: Sha, reg: Reg, n: Node, b: Block)
    requires Linked(reg) && NodeInv(H, reg, n) && Holds(reg, b) && b.finhash != GENESIS_HASH
    ensures NodeInv(H, reg, n.(bq := n.bq + [b])) && Known(n.(bq := n.bq + [b])) == Known(n)
  {
  }

  lemma DeliveredVoteKeeps(H: Sha, reg: Reg, n: Node, t: Transaction)
    requires Linked(reg) && NodeInv(H, reg, n)
    ensures NodeInv(H, reg, n.(tq := n.tq + [t])) && Known(n.(tq := n.tq + [t])) == Known(n) + {t.key}
  {
    KeysConcat(n.tq, [t]);
    assert Keys([t]) == {t.key} by {
      assert t in [t];
    }
  }

  /** The registry after a step still carries every other node's invariant. */
  lemma OthersKeep(H: Sha, reg: Reg, sent: Option<Block>, n: Node)
    requires Linked(reg) && Linked(Record(reg, sent)) && NodeInv(H, reg, n)
    requires sent.Some? && sent.value.finhash in reg ==> reg[sent.value.finhash] == sent.value
    ensures NodeInv(H, Record(reg, sent), n)
  {
    match sent
    case None =>
    case Some(b) =>
      if b.finhash in reg {
        assert reg[b.finhash := b] == reg;
      } else {
        NodeInvGrows(H, reg, b, n);
      }
  }

  /** A local result with its broadcast keeps the invariant of the whole network. */
  lemma MoveKeeps(H: Sha, s: Net, i: nat, r: Result, to: set<nat>)
    requires Inv(H, s) && i < |s.nodes| && i !in to
    requires Sound(Record(s.reg, r.sent)) && Honest(H, Record(s.reg, r.sent))
    requires StepKeeps(H, Record(s.reg, r.sent), s.nodes[i], r)
    requires r.sent.Some? && r.sent.value.finhash in s.reg ==> s.reg[r.sent.value.finhash] == r.sent.value
    ensures Inv(H, Move(s, i, r, to))
  {
    var s' := Move(s, i, r, to);
    var reg' := s'.reg;
    forall j | 0 <= j < |s'.nodes|
      ensures NodeInv(H, reg', s'.nodes[j])
    {
      if j == i {
        assert NodeInv(H, s.reg, s.nodes[i]);
        assert s'.nodes[i] == r.node;
      } else {
        assert NodeInv(H, s.reg, s.nodes[j]);
        OthersKeep(H, s.reg, r.sent, s.nodes[j]);
        if r.sent.Some? && j in to {
          DeliveredBlockKeeps(H, reg', s.nodes[j], r.sent.value);
        }
      }
    }
  }

  lemma SentIsHeld(H: Sha, reg: Reg, n: Node, r: Result)
    requires Sound(reg) && StepKeeps(H, reg, n, r)
    ensures Record(reg, r.sent) == reg
    ensures r.sent.Some? ==> Holds(reg, r.sent.value)
  {
  }

  lemma VotesKeep(H: Sha, s: Net, to: set<nat>, t: Transaction)
    requires Inv(H, s)
    ensures Inv(H, s.(nodes := DeliverVote(s.nodes, to, t)))
  {
    forall j | 0 <= j < |s.nodes|
      ensures NodeInv(H, s.reg, DeliverVote(s.nodes, to, t)[j])
    {
      assert NodeInv(H, s.reg, s.nodes[j]);
      DeliveredVoteKeeps(H, s.reg, s.nodes[j], t);
    }
  }

  /** A silent local step. */
  lemma QuietKeeps(H: Sha, s: Net, i: nat, n': Node)
    requires Inv(H, s) && i < |s.nodes| && StepKeeps(H, s.reg, s.nodes[i], Result(n', None))
    ensures Inv(H, s.(nodes := s.nodes[i := n']))
  {
    MoveKeeps(H, s, i, Result(n', None), {});
  }

  /** A peer's answer is the block that was asked for. */
  lemma AnswerIsHeld(H: Sha, s: Net, source: Option<nat>, h: Digest)
    requires Inv(H, s)
    requires source.Some? ==> source.value < |s.nodes| && InChain(s.nodes[source.value].blocks, h)
    ensures var a := Answer(s, source, h);
            a.Some? ==> Holds(s.reg, a.value) && a.value.finhash == h
  {
    if source.Some? {
      var n := s.nodes[source.value];
      assert NodeInv(H, s.reg, n);
      IndexOfIsFirst(n.blocks, h);
      AncestrySuffix(s.reg, n.blocks[0].finhash, IndexOf(n.blocks, h));
    }
  }

  /** What the moving peer does by itself. */
  ghost function Local(H: Sha, s: Net, e: Event): Result
    requires Enabled(s, e)
  {
    var n := s.nodes[e.i];
    match e
    case Vote(_, t) => Result(n.(tq := n.tq + [t]), None)
    case Idle(_) => Result(n.(phase := Take), None)
    case Receive(_, _) => HandleBlock(n)
    case Ask(_, source) => Result(Fetch(n, Answer(s, source, n.phase.current.prev)), None)
    case Adopt(_, _) => Splice(n)
    case TakeVote(_, _) => Result(TakeTx(n), None)
    case Try(_, _) => MineRound(H, n)
  }

  function Recipients(e: Event): set<nat> {
    match e
    case Receive(_, to) => to
    case Adopt(_, to) => to
    case Try(_, to) => to
    case _ => {}
  }

  /** What a step does to each node: the mover takes its local result, the others at most get
      the sent block and a forwarded vote at the end of their queues. */
  lemma StepShape(H: Sha, s: Net, e: Event, j: nat)
    requires Enabled(s, e) && j < |s.nodes|
    ensures var s' := Step(H, s, e);
            var r := Local(H, s, e);
            && |s'.nodes| == |s.nodes| && s'.reg == Record(s.reg, r.sent)
            && (j == e.i ==> s'.nodes[j] == r.node)
            && (j != e.i ==>
                  && s'.nodes[j].blocks == s.nodes[j].blocks
                  && s'.nodes[j].phase == s.nodes[j].phase
                  && s'.nodes[j].voted == s.nodes[j].voted && s'.nodes[j].work == s.nodes[j].work
                  && s.nodes[j].tq <= s'.nodes[j].tq
                  && s'.nodes[j].bq == if r.sent.Some? && j in Recipients(e) then s.nodes[j].bq + [r.sent.value]
                                       else s.nodes[j].bq)
  {
  }

  lemma LocalKeeps(H: Sha, s: Net, e: Event)
    requires Inv(H, s) && Enabled(s, e) && DistinctHashes(H, s, e)
    ensures var r := Local(H, s, e);
            var reg' := Record(s.reg, r.sent);
            && Sound(reg') && Honest(H, reg')
            && StepKeeps(H, reg', s.nodes[e.i], r)
            && (r.sent.Some? ==> (e.Try? && (r.sent.value.finhash in s.reg ==> Holds(s.reg, r.sent.value)))
                                 || Holds(s.reg, r.sent.value))
  {
    var n := s.nodes[e.i];
    assert NodeInv(H, s.reg, n);
    match e
    case Vote(_, t) => DeliveredVoteKeeps(H, s.reg, n, t);
    case Idle(_) =>
    case Receive(_, _) =>
      HandleBlockKeeps(H, s.reg, n);
      SentIsHeld(H, s.reg, n, HandleBlock(n));
    case Ask(_, source) =>
      AnswerIsHeld(H, s, source, n.phase.current.prev);
      FetchKeeps(H, s.reg, n, Answer(s, source, n.phase.current.prev));
    case Adopt(_, _) =>
      SpliceKeeps(H, s.reg, n);
      SentIsHeld(H, s.reg, n, Splice(n));
    case TakeVote(_, _) => TakeTxKeeps(H, s.reg, n);
    case Try(_, _) => MineRoundKeeps(H, s.reg, n);
  }

  lemma StepInv(H: Sha, s: Net, e: Event)
    requires Inv(H, s) && Enabled(s, e) && DistinctHashes(H, s, e)
    ensures Inv(H, Step(H, s, e))
  {
    var n := s.nodes[e.i];
    LocalKeeps(H, s, e);
    match e
    case Vote(i, t) => VotesKeep(H, s, {i}, t);
    case TakeVote(i, to) =>
      QuietKeeps(H, s, i, TakeTx(n));
      if Forwarded(n).Some? {
        VotesKeep(H, s.(nodes := s.nodes[i := TakeTx(n)]), to, Forwarded(n).value);
      }
    case Idle(i) => QuietKeeps(H, s, i, Local(H, s, e).node);
    case Ask(i, _) => QuietKeeps(H, s, i, Local(H, s, e).node);
    case _ => MoveKeeps(H, s, e.i, Local(H, s, e), Recipients(e));
  }

  /** The invariant holds at every point of every run that starts with it. */
  lemma {:induction false} RunInv(H: Sha, r: Behaviour, k: nat)
    requires IsRun(H, r) && Inv(H, r.states[0]) && k < |r.states|
    ensures Inv(H, r.states[k]) && |r.states[k].nodes| == |r.states[0].nodes|
    decreases k
  {
    if k > 0 {
      var e := r.events[k - 1];
      assert StepAt(H, r, k - 1);
      RunInv(H, r, k - 1);
      StepInv(H, r.states[k - 1], e);
      StepShape(H, r.states[k - 1], e, e.i);
    }
  }
}
