# OneVote: a verified model of the voting chain

OneVote is a proof-of-work chain of votes. Each peer keeps a chain of blocks of eight votes, an index
`voted` of the keys on it, a queue of pending votes and a half-built block. It receives blocks from its
peers, repairs its chain onto a longer branch by fetching missing parents, and mines. This project models
one peer, networks of peers, the queue monitor, the hashes, the block messages and the peer list, and
proves what holds in every run.

## How it is built

- `Ledger`, `Registry`: votes, blocks, chains; the history variable that records every mined block by hash,
  and the ancestry of a block in it.
- `Hashing`, `Mining`: Merkle root, final hash, leading zeros, the nonce search. SHA-1 is a parameter `H`, any
  total function from bytes to 20-byte digests; no property of it is assumed anywhere.
- `NodeModel`, `NodeSafety`: one peer as a state machine over the phases of its loop (top of the loop, repair
  walk, take a vote, mine, aborted), and what each phase keeps.
- `Blockchain.dfy` (module `ChainStore`), `Processor.dfy` (module `Processing`): the same operations as classes
  that update their fields in place, with the loops of the source; each method is proved equal to the
  corresponding step of `NodeModel`.
- `Network`, `Guarantees`, `VoteFlow`, `Flooding`, `Convergence`, `Liveness`: any number of peers interleaved phase by phase. Delivery
  may reach any at most ten other peers or fail; a parent may come from any peer that has it at that moment or
  from nobody; other chains may change between two fetches of one repair.
- `Monitor.dfy` (module `QueueMonitor`): `synchronized_queue` with lock, wait, signal, unlock and spurious
  wake-ups as separate steps.
- `Codec`, `Peers`: block messages and the peer list.
- `AsWritten`: the code as it stands where it departs from its comments.

One assumption is explicit: "two distinct blocks do not share a hash" (processor.cpp:165-167). It is a
condition on mining steps only (`Network.DistinctHashes`): the block a round would publish is not recorded
under its hash as a different block. `Mining.FreshHashIff` says exactly when that is so: the final hash covers
neither the parent nor the choices, and only the first 20 bytes of each key, so the same voters must not be mined
in the same order on two parents. `AsWritten.SharedHashesBreakOneVote` shows that the assumption is needed.

## Where the code and its comments differ

The main model follows the stated intent in these places; the code as written is in `AsWritten`.

- `pop` and `pop_nonblocking` return `back()` and drop the front (processor.cpp:408-409, 427-428); the comments
  say front. See `DrainRepeatsLast`, `DrainIsFifoIff`.
- All Merkle leaves read `transaction_array[0]` (processor.cpp:38); index `i` is meant. See `RootOfFirstIsRootIff`.
- Mining sets `max_ind = 0` before adding and sending the block (peer.cpp:225). See `MinedBlockArrivesEmpty`.
- `repair_blockchain` does not update `chain_length` (processor.hpp:227 documents it as the current length). See
  `LengthIsStaleAfterEveryRepair`.
- The walk declares a second `current_block` initialised from itself (processor.cpp:280), which has no defined
  behaviour; assignment to the outer variable is modelled.
- A missing parent aborts (processor.cpp:215-218); the comment there and the check at processor.cpp:283 say to give
  up on the repair, which is modelled. The two assertions before it (processor.cpp:209-210) are left out of the
  main model because they abort on every mined block. See `EveryFetchAborts`.
- `verify_transactions` does not compare the votes of one block with each other. See `AcceptedKeepsOneVoteIff`. A
  repair does not check the branch it adopts. Both are derived from the mining phase in the network model.
- The genesis hash is stored in 15 bytes and compared over 20; it is one 20-byte constant here.

## Model

| member | source | states |
|---|---|---|
| `Guarantees.OneVotePerVoter` | peer.cpp:93-240 | In every run of any number of peers under the distinct-hash assumption: no voter key occurs at two positions of any peer's chain, the chain is hash-linked down to genesis, `chain_length` is the list length, every block's number is its height, and `voted` holds exactly the keys on the chain |
| `Guarantees.ChildIsNeverRejected` | processor.cpp:320-334 | In every run, a queued block whose parent is the head is never `TRANSACTION_INVALID` |
| `Guarantees.NoVoterIsLost` | peer.cpp:116-207 | In every run: once a vote has been pushed onto a peer's queue, by a booth or forwarded by another peer, its voter is in that peer's queue, working block or `voted` after every later step, across evictions and discarded working blocks |
| `Guarantees.RunForgetsNobody` | processor.cpp:251-301 | Between any two points of any run the voters a peer has queued, in work or on its chain only grow |
| `Guarantees.RunClimbs` | peer.cpp:138-158 | Between any two points of any run a peer keeps its chain or ends with a strictly larger head number |
| `Guarantees.EveryBlockIsMined` | peer.cpp:212-236 | Every block above genesis on any chain has the Merkle root and final hash of its own votes, meets the target, carries the first nonce that does and the default verifier key |
| `Guarantees.AgreeBelowSharedBlock` | processor.hpp:77-79 | Two peers that share a block agree on everything below it; with one head they have the same chain and the same `voted` |
| `Guarantees.WorkingBlockIsReady` | peer.cpp:177-207 | At every point of every run: at most 8 votes in the working block, keys distinct and not on the chain, `quotafull` exactly when there are 8, and none of the nonces tried so far meets the target |
| `Guarantees.WalkIsBounded` | processor.cpp:272-286 | In every run a repair walk that still has to ask has asked fewer than `target.number - 1` times, whatever the other peers did in between |
| `Guarantees.MovesOnlyToHigher` | peer.cpp:116-171 | A received block moves the peer, directly or through a repair, if and only if its number is larger than the head's |
| `Guarantees.OnlyVotesAreWaitedFor` | peer.cpp:177-180 | A live peer can act if and only if it is not waiting for a vote on an empty queue (while it waits it handles no blocks either) |
| `VoteFlow.VotesAreConserved` | peer.cpp:93-240 | In every run, with multiplicity and unchanged: the votes in a peer's queue, working block and chain, together with the repeats it threw out, are exactly the votes pushed to it and those that came with blocks of others |
| `VoteFlow.NoVoteIsLost` | peer.cpp:116-207 | In every run a vote pushed to a peer is, whole, in its queue, its working block or a block of its chain at every later point, unless it was taken off in between and thrown out as a repeat |
| `VoteFlow.VoteQueueIsFifo` | processor.cpp:251-301 | In every run, everything that entered a peer's vote queue (from booths, other peers, evicted blocks, discarded working blocks) is what was taken off, in the same order, followed by the contents |
| `VoteFlow.QueueDrains` | peer.cpp:177-196 | Between any two points of any run the queue's length falls by one for each vote taken, repeats included, and rises only by the votes that enter |
| `VoteFlow.WorkIsAcceptedSince` | peer.cpp:93-240 | At every point of every run the working block holds exactly the votes accepted since the chain last changed, in order, and its tries are 1024 for each round since then |
| `VoteFlow.BlockQueueIsFifo` | peer.cpp:108-171 | In every run the blocks delivered to a peer (each the sender's new head) are the blocks it has judged, in the same order, followed by those waiting |
| `VoteFlow.LooksAtBlocksInBetween` | peer.cpp:93-216 | A peer never takes two votes, nor tries two rounds of nonces, without looking at its block queue in between |
| `VoteFlow.StepConserves` | peer.cpp:93-240 | Every step of anybody keeps a peer's books: votes held and thrown out equal votes held before, pushed and adopted |
| `VoteFlow.ForwardsAccepted` | peer.cpp:189-206 | A vote is forwarded to other peers exactly when it enters the working block |
| `Flooding.FloodingTerminates` | peer.cpp:110-172 | From any reachable state, a run in which nobody publishes takes at most `Potential(s)` block-handling, fetching and repairing steps, however it is scheduled |
| `Flooding.StepLowersPotential` | client.cpp:15-19 | Every block-handling step lowers the potential by at least one; no other step except publishing raises it |
| `Flooding.HeightBound` | processor.cpp:344-353 | No block's number exceeds the number of blocks ever mined |
| `Flooding.TotalDelivered` | client.cpp:15-19 | A broadcast raises the potential by exactly one queued block per recipient |
| `Convergence.NetworkLevels` | peer.cpp:110-172 | With reliable calls between mutual peers, in every run: once no block is queued and no repair is under way, any two peers joined by a path of peers have heads of the same number |
| `Convergence.StepConverges` | peer.cpp:116-167 | Every step keeps, for each peer edge: the other end is as high, or the sender's head is in its queue or is the target of its repair |
| `Convergence.NeighbourHasParent` | client.cpp:34-44 | A neighbour whose head is the repair target has every parent the walk asks for, so with reliable calls the walk cannot fail |
| `Convergence.QuietIsLevel` | peer.cpp:138-166 | In a quiet network the edge invariant makes heights equal along every path |
| `Liveness.FirstBlockCanBeMined` | peer.cpp:177-235 | From the start of any network, any eight votes of different voters whose block has a solution can become the first block above genesis of any peer, with the distinct-hash assumption met along the way |
| `Liveness.VotesCanBeMined` | peer.cpp:177-235 | At any peer at the top of its loop with no block waiting, eight queued votes of new voters whose block has a solution are mined by some run, on top of its chain and in queue order |
| `Liveness.Fills` | peer.cpp:177-207 | Loop turns on a queue of new voters fill the working block in queue order |
| `Liveness.Mines` | peer.cpp:209-238 | Interrupted rounds of 1024 tries reach the first nonce that works, and the block goes on top of the chain |
| `Network.StartInv` | processor.cpp:112-121 | The initial network (every peer at genesis) satisfies the invariant |
| `Network.StepInv` | peer.cpp:93-240 | Every enabled step of any peer keeps the network invariant: sound registry, every chain the ancestry of its head, exact index, minable working block, walks on the target's ancestry |
| `Network.RunInv` | peer.cpp:93-240 | The invariant holds after every run |
| `Network.LocalKeeps` | peer.cpp:93-240 | Whatever a peer does in one step keeps its own invariant, and what it sends is its new head, known to the registry or freshly mined |
| `Network.AnswerIsHeld` | server.cpp:66-81 | A peer's answer to `GetBlock` is the block with the requested hash |
| `Network.StepShape` | server.cpp:11-32 | A step changes the moving peer by its local result; the others at most gain the sent block or vote at the end of their queues |
| `NodeSafety.HandleBlockKeeps` | peer.cpp:116-171 | Block receipt keeps the node invariant and all voters; the verdict is `OK` if and only if the parent is the head; a block is sent exactly when the chain changed |
| `NodeSafety.AddBlockKeepsChain` | processor.cpp:344-353 | Appending a child of the head keeps the chain an ancestry and `voted` exact; the number written is the one the block already has |
| `NodeSafety.FetchKeeps` | processor.cpp:277-286 | One turn of the repair walk goes down exactly one height or gives up, and changes nothing else |
| `NodeSafety.FetchIsAboveGenesis` | processor.cpp:272-286 | A walk that still has to ask stands above genesis and has a parent to ask for |
| `NodeSafety.MeetingPoint` | processor.cpp:274-277 | Where a chain contains a block, everything from there down is that block's ancestry |
| `NodeSafety.RollIndex` | processor.cpp:288-301 | Erasing the keys of evicted blocks and inserting those of new blocks gives the keys of the new chain if and only if no evicted key stays on the kept part without coming back with the new branch |
| `NodeSafety.ReorganiseIsRepair` | processor.cpp:263-309 | A successful repair leaves exactly the target's ancestry, hash-linked and newest first, everything from the common ancestor down untouched, `voted` exact, and a higher head |
| `NodeSafety.ReorganiseKeepsVoters` | processor.cpp:288-296 | No voter is lost by an eviction |
| `NodeSafety.SpliceKeeps` | peer.cpp:148-158 | A successful repair with the discard of the working block keeps the node invariant and all voters |
| `NodeSafety.TakeTxKeeps` | peer.cpp:177-207 | Taking a vote keeps the node invariant and all voters; exactly the front vote leaves the queue, and it enters the working block if and only if its voter is neither on the chain nor in the working block |
| `NodeSafety.DropWorkKeeps` | peer.cpp:124-129 | Discarding the working block puts its whole votes, in order, behind the queue, and keeps the node invariant and all voters |
| `NodeSafety.MineRoundKeeps` | peer.cpp:212-238 | A mining round keeps the node invariant; a published block has a full proof of work and keeps the registry sound |
| `NodeSafety.RecordMined` | peer.cpp:224-234 | Publishing a block whose keys are new to the miner's chain keeps one vote per voter in the history of every block, given that no other block has its hash |
| `NodeSafety.LeastNonce` | peer.cpp:214-236 | Below 64-bit wrap-around a published nonce is the least one from 1 on that meets the target |
| `NodeSafety.MinedStartsWithZero` | peer.cpp:222 | A hash that meets the target starts with a zero byte and is not the genesis hash |
| `NodeModel.ChildOfHead` | processor.cpp:320-334 | A known block whose parent is the head is one higher, brings only new and distinct keys, and is judged `OK` |
| `NodeModel.VerdictIff` | processor.cpp:320-334 | For every chain, index and block: the three verdicts by parent hash and by the positions of the block's votes, each if and only if |
| `NodeModel.RefusedChangesNothing` | peer.cpp:131-171 | For every node: exactly the front block leaves the queue; a child of the head with a recorded voter, or a block on another parent that is not higher, changes nothing else and is not sent; a higher one only starts a walk |
| `NodeModel.AcceptedGoesOnTop` | peer.cpp:117-130 | For every node: an accepted block becomes the new head and is what is sent; the working block's votes go whole and in order behind the queue |
| `NodeModel.SplicedVotes` | processor.cpp:288-305 | For every node: an adopted repair keeps the chain from the first block with the meeting hash down, and puts the evicted votes and then the working block's behind the queue, whole and in order |
| `NodeModel.TakesFront` | peer.cpp:177-207 | For every node: with room exactly the front vote leaves the queue; a repeat changes nothing else; any other vote goes to the end of the working block; a full block goes to mining as it is |
| `NodeModel.FirstHit` | peer.cpp:214-236 | The first try in a range whose nonce meets the target: it does, no earlier one does, and `None` means that none does |
| `NodeModel.IndexOfIsFirst` | processor.cpp:194-202 | The lookup finds the first block with the hash, and finds one if and only if there is one |
| `NodeModel.NonceIsRemainder` | processor.hpp:81-83 | The word after k increments is k modulo 2^64 |
| `NodeModel.NextNonce` | peer.cpp:220 | Incrementing the 64-bit `magic` gives the word of the next try, wrap-around included |
| `Registry.AncestryIsHashLinked` | processor.hpp:77-79 | The ancestry of a block is newest first, each block naming the next one's hash, genesis last |
| `Registry.HashLinkedIsAncestry` | processor.hpp:77-79 | A hash-linked list down to genesis can only be the ancestry of its head |
| `Registry.AncestrySuffix` | processor.hpp:77-79 | Cutting an ancestry at any block leaves that block's ancestry, with numbers falling by one |
| `Registry.ExtendRegistry` | peer.cpp:224-234 | A new block above a recorded one leaves all older histories as they were and no voter twice in its own |
| `Ledger.UniqueKeysIsNoKeyTwice` | processor.cpp:123-139 | The block-by-block condition `every block brings new keys` is one vote per voter over all positions of the chain |
| `Ledger.ChainTxsAt` | processor.cpp:251-255 | The votes of a list of blocks are block by block in list order |
| `ChainStore.Blockchain.constructor` | processor.cpp:112-121 | A new chain is genesis alone, with an empty index and length 1 |
| `ChainStore.Blockchain.VerifyTransactions` | processor.cpp:129-139 | True if and only if no key of the block is in `voted` |
| `ChainStore.Blockchain.GetBlockByNumber` | processor.cpp:153-161 | A block of the chain with that number, or none if there is none |
| `ChainStore.Blockchain.GetBlockByHash` | processor.cpp:172-183 | The first block with that hash, found if and only if the chain has one |
| `ChainStore.Blockchain.CheckIfBlockInChain` | processor.cpp:194-202 | The position of the block, or the end of the list exactly when it is absent |
| `ChainStore.Blockchain.RemoveTransactionsFromSet` | processor.cpp:227-232 | `voted` loses exactly the keys of the block |
| `ChainStore.Blockchain.AddTransactionsToSet` | processor.cpp:239-244 | `voted` gains exactly the keys of the block |
| `ChainStore.Blockchain.AddTransactionsToQueue` | processor.cpp:251-255 | The block's votes are appended to the shared queue in order |
| `ChainStore.Blockchain.CheckBlockValidity` | processor.cpp:320-334 | `PREV_BLOCK_NONMATCH` if and only if the parent is not the head; `TRANSACTION_INVALID` if and only if it is and some vote's key is in `voted` |
| `ChainStore.Blockchain.Append` | processor.cpp:344-353 | The new chain, index and length of the node model's append |
| `ChainStore.Blockchain.CollectBranch` | processor.cpp:272-286 | The walk of the node model, turn by turn, for any answers of the neighbours; fewer than `b.number` fetches |
| `ChainStore.Blockchain.Evict` | processor.cpp:291-296 | The first `k` blocks go, `voted` loses their keys, the queue gains their votes in chain order |
| `ChainStore.Blockchain.IndexBranch` | processor.cpp:299-301 | `voted` gains the keys of the new branch |
| `ChainStore.Blockchain.SpliceBranch` | processor.cpp:288-305 | Evict, index and splice together are the reorganisation of the node model |
| `ChainStore.Blockchain.RepairBlockchain` | processor.cpp:263-309 | Reorganises exactly when the walk meets the chain; otherwise chain, `voted`, length and queue are unchanged |
| `ChainStore.RepairFacts` | processor.cpp:263-309 | What a repair leaves: the target's ancestry, hash-linked, with an exact index |
| `ChainStore.RepairedIsSplice` | processor.cpp:263-309 | The whole repair is the node model's fetching turns followed by its splice, or no change |
| `ChainStore.SynchronizedQueue.Push` | processor.cpp:388-394 | The item is appended |
| `ChainStore.SynchronizedQueue.PopNonblocking` | processor.cpp:419-431 | The front item is removed and returned, or nothing happens on an empty queue |
| `Processing.Processor.DiscardWork` | peer.cpp:124-129 | The working block's votes return to the end of the queue, whole and in order, and a new working block starts |
| `Processing.Processor.AcceptBlock` | peer.cpp:117-130 | Append, then a new working block; the block sent carries its new number |
| `Processing.Processor.RepairOnto` | peer.cpp:148-162 | The node model's walk and splice, or its failed walk |
| `Processing.Processor.ProcessBlock` | peer.cpp:116-171 | The three verdicts and their outcomes, as the node model takes them |
| `Processing.Processor.ReceiveBlock` | peer.cpp:108-175 | The block phase of one loop turn; `docontinue` exactly when the loop starts over |
| `Processing.Processor.TakeTransaction` | peer.cpp:177-207 | The vote phase of the node model; with room in the working block exactly the front vote leaves the queue, a repeat is thrown out and changes nothing else, and any other vote is accepted and forwarded |
| `Processing.Processor.Publish` | peer.cpp:224-235 | The found block goes on top of the head and the working block starts anew |
| `Processing.Processor.TryNonces` | peer.cpp:209-238 | One mining round of the node model, aborts included |
| `Processing.Search` | peer.cpp:214-237 | 1024 increments find the first nonce after the ones tried before that meets the target, or show that none of them does, or abort if and only if the root starts with a zero byte |
| `Processing.TryOne` | peer.cpp:220-222 | The hashes for one nonce and whether they meet the target |
| `Processing.CalculateFinhash` | processor.cpp:79-91 | Root and final hash of the votes and the nonce, the hash being that of the root followed by the eight little-endian bytes of the nonce; an abort exactly when the root's first byte is zero |
| `Processing.ReceivedKeeps` | peer.cpp:108-175 | The block phase with the whole repair in it keeps the node invariant and all voters and only climbs |
| `Hashing.MerkleRoot` | processor.cpp:43-65 | For every power-of-two count of at least two leaves the level-by-level loop returns the balanced-tree hash after log2(n) levels, without reading past a level |
| `Hashing.TreeHashOfTwo` | processor.cpp:49-53 | Two leaves: the hash of the left digest followed by the right one |
| `Hashing.TreeHashOfHalves` | processor.cpp:46-54 | Any two halves of one power-of-two length: the hash of the left half's root followed by the right half's |
| `Hashing.RootOfEight` | processor.cpp:30-66 | The root of eight votes written out as nested hashes of the first 20 bytes of their keys |
| `Hashing.PairUpKeepsRoot` | processor.cpp:46-54 | Hashing neighbours in pairs does not change the tree's root |
| `Hashing.TreeCollision` | processor.cpp:30-66 | From two leaf sequences of one power-of-two length under one root: `None` if and only if they are equal, otherwise two distinct inputs with one hash |
| `Hashing.FinalHashCommits` | processor.cpp:79-91 | Equal final hashes mean equal nonces and equal hashed keys in order, or give two distinct inputs with one hash |
| `Hashing.FinalHashBytes` | processor.cpp:83-87 | For every eight bytes: the final hash with the nonce they spell, least significant first, is the hash of the root followed by them |
| `Hashing.WordIsEightBytes` | processor.cpp:86 | Every 64-bit word is spelled by exactly one string of eight bytes |
| `Hashing.LittleValueIsSum` | processor.cpp:86 | The byte at position i counts 256^i |
| `Hashing.LittleEndianInjective` | processor.cpp:86 | The bytes of `magic` determine it |
| `Hashing.LeadingZeros` | peer.cpp:18-33 | The loop returns the number of leading zero hex digits |
| `Hashing.LeadingZerosIsBound` | peer.cpp:18-33 | For all n and 0 <= k <= 2n: at least k leading zeros if and only if the big-endian value is below 16^(2n-k) |
| `Hashing.MeetsIsNumericTarget` | peer.cpp:222 | A nonce meets the target if and only if the 160-bit final hash is below 16^37 |
| `Mining.SearchEndsIffSolvable` | peer.cpp:214-237 | Some round succeeds if and only if some 64-bit word meets the target, and then one of the first 2^54 rounds does |
| `Mining.SharedHashIff` | processor.cpp:165-167 | Mined blocks share a hash if the hashed parts of their keys agree in order, and only then unless two distinct inputs with one hash are at hand |
| `Mining.FreshHashIff` | processor.cpp:165-167 | A publishing round respects the distinct-hash assumption if and only if no other recorded block was mined from the same hashed keys in the same order, unless two distinct inputs with one hash are at hand |
| `Mining.SameKeysSameHash` | processor.cpp:79-91 | Blocks mined from the same hashed keys in the same order have the same nonce and the same hash, whatever their parents |
| `QueueMonitor.LinearizableFifo` | processor.cpp:388-431 | For every interleaving: at most one thread inside, the pushed items are the popped items followed by the contents, a thread about to return an item took that item out last, and one about to return NULL stands before an empty queue |
| `QueueMonitor.CallersGetItemsInOrder` | processor.cpp:402-431 | For every interleaving: the pushed items are the values returned to the callers of both pops, in order, then at most one on its way out, then the contents |
| `QueueMonitor.ProducersAddInOrder` | processor.cpp:388-394 | For every interleaving and thread: the items it called `push` with are those its steps added to the queue, unchanged and in order, and at most the one still under way |
| `QueueMonitor.OnlyPopSleeps` | processor.cpp:402-431 | For every interleaving: only a blocking `pop` sleeps or is woken; each call returns what its kind returns |
| `QueueMonitor.NoLostWakeup` | processor.cpp:388-431 | For every interleaving: with the lock free and a consumer asleep, the queue holds no more items than there are woken consumers yet to run |
| `QueueMonitor.SleepersWaitForNothing` | processor.cpp:402-412 | If every thread is outside or asleep, and some sleep, the queue is empty |
| `QueueMonitor.ActKeeps` | processor.cpp:388-431 | Every lock, wait, signal, unlock and spurious wake-up keeps exclusion, order, coverage of the items and the values on their way out |
| `QueueMonitor.SignalCovers` | processor.cpp:392 | A signal that wakes at least one sleeper pays for the item just inserted |
| `Codec.EncodeBlock` | encoding_helpers.cpp:69-93 | The message of the block, field by field, with as many transactions as `max_ind` says, the signed reading of the nonce and the verifier key up to its first NUL |
| `Codec.DecodeBlock` | encoding_helpers.cpp:46-66 | The object of the message, field by field, slots past the transactions unset |
| `Codec.RoundTripIff` | encoding_helpers.cpp:46-93 | Decoding an encoded block gives it back if and only if number and nonce fit their words, the verifier key is NUL-free and slots past `max_ind` are unset |
| `Codec.SignedRoundTrip` | protos/node.proto:48 | Every 64-bit nonce, and no larger number, survives the signed message field |
| `Codec.CStringIsWhole` | encoding_helpers.cpp:79 | A key is sent whole if and only if it has no NUL |
| `Codec.CStringIsPrefix` | encoding_helpers.cpp:79 | A key is sent up to its first NUL |
| `Codec.MessageRoundTrip` | encoding_helpers.cpp:46-93 | A well-formed message is the same after decoding and encoding |
| `Codec.BlockTravels` | encoding_helpers.cpp:46-93 | A ledger block that travels arrives as the same block |
| `Peers.Client.AddNewPeer` | client.cpp:72-92 | Adds at the front unless the list is full or the address is its own, the dummy or already there |
| `Peers.Client.BootstrapPeers` | client.cpp:105-127 | First peer, then all answers of the current peers in `push_front` order, until full; returns the size |
| `Peers.Client.GetAddr` | server.cpp:37-56 | Answers with the list as it was, then adds the caller |
| `Peers.Collect` | client.cpp:109-116 | The answers of all peers, latest first |
| `Peers.OffersElements` | client.cpp:109-116 | An address is offered if and only if some current peer names it |
| `Peers.BootstrapFills` | client.cpp:105-127 | A bootstrap ends with 10 peers or with every admissible offered address present; invariants kept, nobody dropped, nobody added who is neither the first peer nor named by a current one |
| `Peers.EarlierOffersWin` | client.cpp:118-124 | An admissible offer that finds no place finds the list full of old peers and earlier offers |
| `Peers.LastHeardFirst` | client.cpp:109-116 | Offers are worked off in the reverse of the order in which they were heard |
| `Peers.PeersOverRuns` | client.cpp:65-127 | Over any run of bootstraps and incoming requests: at most 10 peers, distinct, none itself or the dummy, none ever dropped |
| `AsWritten.PopIsFifoIff` | processor.cpp:408-409 | As written, one pop is a FIFO pop if and only if the first and the last item are the same |
| `AsWritten.DrainRepeatsLast` | processor.cpp:408-409 | As written, emptying a queue returns its last item every time |
| `AsWritten.DrainIsFifoIff` | processor.cpp:427-428 | As written, what comes out is what went in if and only if all items are equal |
| `AsWritten.TwoVotesOneLost` | processor.cpp:408-409 | Concrete case: 1 and 2 go in, 2 and 2 come out |
| `AsWritten.RootOfFirstIsRootIff` | processor.cpp:35-41 | As written, the root is the intended one if all eight leaves are one digest, and only then unless a hash collision is at hand |
| `AsWritten.RootOfFirstIgnoresTheRest` | processor.cpp:35-41 | As written, the root depends on the first voter only |
| `AsWritten.SameVotesOtherParent` | processor.cpp:79-91 | Concrete family: the same votes mined on another parent give a distinct block with the same hash |
| `AsWritten.SharedHashesBreakOneVote` | processor.cpp:263-309 | Without the distinct-hash assumption one vote per voter fails: two honest chains with the same votes in opposite order let a third peer's repair record every voter of a block twice |
| `AsWritten.PemBlocksShareOneHash` | voting-booth.cpp:26-34 | With whole PEM files as keys, all mined blocks have one hash |
| `AsWritten.EveryFetchAborts` | processor.cpp:207-220 | As written, in every run the first parent fetch of every repair aborts, because mined hashes start with a zero byte |
| `AsWritten.StaleLengthIff` | processor.cpp:288-305 | As written, `chain_length` is right after a repair if and only if as many blocks came as went |
| `AsWritten.LengthIsStaleAfterEveryRepair` | processor.cpp:263-309 | As written, after every successful repair `chain_length` is smaller than the chain and the next appended block is numbered below its height |
| `AsWritten.MinedBlockArrivesEmpty` | peer.cpp:225-233 | As written, a mined block reaches the peers without any vote; it arrives whole if and only if it had none |
| `AsWritten.AcceptedKeepsOneVoteIff` | processor.cpp:129-139 | An accepted block keeps one vote per voter if and only if its own keys are distinct |
| `AsWritten.EightVotesOfOneVoter` | processor.cpp:129-139 | Concrete case: a block with eight votes of one new voter is judged `OK` |

## Left out

- SHA-1, RSA keys, gRPC channels and statuses, protobuf wire bytes: library code; messages are values and calls are steps.
- Bootstrapping, retry timing, sleeps and logging inside the processing loop: the peer list is modelled on its own.
- The debugging aborts when a block number exceeds 5 (peer.cpp:120-122, 144-146, 230-232): every run would be finite.
- Raw pointers, `delete`, `c_str()` lifetimes: hashes and blocks are values.
- Data races between the server thread and the processing thread on the chain and the peer list: each handler and each phase is one step; real locking is modelled for the queue only.
- Block numbers are unbounded in the chain model; the 32-bit field appears in `Codec` only.
- Keys shorter than 20 bytes: the source hashes whatever follows in memory; the model hashes the key alone.
- The `size` field of a transaction, which is never sent: it would only add an unused field.
- `verify_block_number`, `GetTransaction`, heartbeats and the argument-less `verify_transactions`: unimplemented in the source.
- The endless loop itself: `Processing` has one method per phase, and `Network` interleaves the phases in every order the loop allows.
- Convergence.NetworkLevels: states equal heights, not equal chains, because ties between branches of one height are never resolved (`Guarantees.MovesOnlyToHigher`).
