# Relayer core: header store and proof admission, in Dafny

This project models two pieces of sequential logic in the cross-chain relayer.

- **Light client** (`relayer/src/light_client/mod.rs`). It keeps a per-chain sequence of
  `StoredHeader`s and a per-chain finalized height. It backfills a 31-block window at
  start-up. Each poll advances at most one block, by appending the new header or resolving
  a reorg first, and then pruning the store to 1000 headers. It reports `NewBlock` and
  `Reorg` events. Headers are looked up by hash, and transaction inclusion is checked with
  a position-blind Merkle fold.
- **Prover** (`relayer/src/prover/mod.rs`). `generate_proof` maps each of the four
  request kinds to a tag, a 192-byte zero placeholder proof and an ordered list of 32-byte
  public inputs. That includes the right-aligned recipient address and big-endian `u64`
  words. The service around it is a permit counter: the `enabled` check, `is_available`
  and `queue_depth`, and one permit taken and given back per request.

Everything is a pure function over immutable datatypes:

- `Client` holds the header map, the finality map and the buffered events.
- `Provider` is one chain's RPC answers for a step: its chain id, its current height and
  the block it returns for each number.
- `Service` holds the free permits, the request queue, the running jobs and the replies
  sent.

The Keccak hash is a function-valued parameter. The combine step is
`keccak(current ++ sibling)`. The measured proving time and whether a job hit its deadline
are parameters too.

Files: `wrappers.dfy` (Option/Result), `bytes.dfy` (bytes, `u64`, 32-byte words,
big-endian codec), `header_store.dfy`, `merkle.dfy`, `light_client.dfy`,
`proof_generator.dfy`, `prover_service.dfy`.

Behaviours reproduced as the code is written:

- The reorg walk also pops and counts the header whose hash equals the new header's
  parent, which is the common ancestor (`HeaderStore.HandleReorgPopsAncestor`).
  - Take `[h0,h1,h2]` and a new header whose parent is `h0`.
  - A walk that kept the common ancestor, as the comment at
    relayer/src/light_client/mod.rs:243 suggests, would leave `[h0, new]` with depth 2.
  - The code leaves `[new]` with depth 3, and the model does the same.
- Polling never touches a chain whose store is empty, so polling never refills an empty
  store (`LightClient.EmptyStoreStaysEmpty`).
- An unresolved reorg empties the store, reports the old length as the depth, and still
  pushes the new header in the same call. The store is then `[new]`, not empty.
- An invariant "the finalized height never exceeds the stored tail" does not hold. It
  fails after a backfill whose top blocks were not returned
  (`LightClient.BackfillGapsFinalizedAboveTail`).
- Suppose a poll appends the block at the provider's height, that height is above 15, and
  the block carries that number. Then the finalized height is exactly 15 below the new tail
  (`LightClient.PollFinalizedBelowTail`). At a height of 15 or less, finality is left as
  it was.
- Finality moves with the requested block number, not the returned header's number. A
  block number of 15 or less leaves finality unchanged.

## Model

| member | source | states |
|---|---|---|
| `Bytes.FromToBigEndian` | relayer/src/prover/mod.rs:176-178 | decoding the `n` big-endian bytes of any value below 256^n gives the value back |
| `Bytes.ToFromBigEndian` | relayer/src/prover/mod.rs:176-178 | re-encoding the decoded value of any byte string in as many bytes gives the string back |
| `Bytes.U64RoundTrip` | relayer/src/prover/mod.rs:177 | `to_be_bytes` of a `u64` is 8 bytes that decode back to it |
| `HeaderStore.Prune` | relayer/src/light_client/mod.rs:213-216 | the result has at most 1000 headers, equals the input when that is already within the bound, and is otherwise its newest 1000 headers in order |
| `HeaderStore.Push` | relayer/src/light_client/mod.rs:211-216 | after push-and-prune the new header is the tail, the length is 1..1000, and the rest is a suffix of the old store (only the oldest were dropped); a full store keeps exactly 1000 |
| `HeaderStore.HandleReorg` | relayer/src/light_client/mod.rs:240-254 | the store ends as a prefix of itself, the depth is the number removed (at least 1 on a non-empty store), no removed header above the stop point matches the parent hash, and a non-empty remainder means the last removed header was the match |
| `HeaderStore.HandleReorgAtLastMatch` | relayer/src/light_client/mod.rs:244-250 | when the parent hash occurs, the walk keeps exactly the headers below its last occurrence, and the depth counts that occurrence too |
| `HeaderStore.HandleReorgExhausts` | relayer/src/light_client/mod.rs:244-250 | when no header matches, the store ends empty with depth equal to its former length |
| `HeaderStore.HandleReorgPopsAncestor` | relayer/src/light_client/mod.rs:245-249 | for `[h0,h1,h2]` and a parent hash equal to `h0`'s, all three are removed with depth 3 |
| `HeaderStore.Find` | relayer/src/light_client/mod.rs:257-262 | a header is found iff some stored header has the hash, and then it is the first such header |
| `HeaderStore.PushIncreasing` | relayer/src/light_client/mod.rs:211-216 | pushing a header numbered above every stored one keeps the store strictly increasing |
| `Merkle.FoldAppend` | relayer/src/light_client/mod.rs:293-302 | folding `p1 ++ p2` from a leaf equals folding `p2` from the fold of `p1` |
| `Merkle.VerifyMerkleProof` | relayer/src/light_client/mod.rs:293-302 | the loop accepts iff the left fold of `keccak(current ++ sibling)` over the proof equals the root |
| `Merkle.EmptyProof` | relayer/src/light_client/mod.rs:293-302 | an empty proof holds iff the leaf is the root |
| `Merkle.TwoSiblings` | relayer/src/light_client/mod.rs:295-300 | with siblings `[s1, s2]` the computed root is `H(H(leaf ++ s1) ++ s2)` |
| `LightClient.BackfillRequests` | relayer/src/light_client/mod.rs:109-112 | the requested numbers run consecutively from `current - 30` (saturating) up to `current`, 1 to 31 of them |
| `LightClient.BackfillFrom100` | relayer/src/light_client/mod.rs:109-131 | from height 100 the requests are 70..100 (31 numbers) and the finalized height is 85 |
| `LightClient.Fetch` | relayer/src/light_client/mod.rs:187-190 | asking for block `n` gives the block the provider holds under `n`, and nothing when it holds none |
| `LightClient.FetchAll` | relayer/src/light_client/mod.rs:112-127 | every request the provider answers contributes its header, and no more headers than requests come back |
| `LightClient.AnsweredFrom` | relayer/src/light_client/mod.rs:112-116 | the indices of the answered requests, strictly increasing, covering every answered request and nothing else |
| `LightClient.FetchAllExactly` | relayer/src/light_client/mod.rs:112-127 | for any provider the collected headers are exactly the answers to the answered requests, one each, in request order |
| `LightClient.FetchAllSound` | relayer/src/light_client/mod.rs:112-127 | with an honest provider every collected header is the provider's block under a requested number |
| `LightClient.FetchAllIncreasing` | relayer/src/light_client/mod.rs:112-127 | for increasing requests and an honest provider the collected headers are strictly increasing by number |
| `LightClient.SyncHeaders` | relayer/src/light_client/mod.rs:103-140 | the synced chain gains a store and the finality `current - 15` (saturating); every other chain's store and finality, and the events, are unchanged |
| `LightClient.BackfillStore` | relayer/src/light_client/mod.rs:103-131 | with an honest provider, after `sync_headers` the store is exactly the provider's blocks within the window, ascending, at most 31, and finality is `current - 15` saturating, with events and other chains unchanged |
| `LightClient.New` | relayer/src/light_client/mod.rs:58-100 | construction registers exactly the two chains, emits no events, and sets each chain's finality 15 below its height (Ethereum's when the ids differ) |
| `LightClient.NewBackfillsBoth` | relayer/src/light_client/mod.rs:81-100 | with honest providers construction leaves each chain's store as its provider's backfill window, with its finality (Ethereum's when the ids differ, since Arbitrum's sync would overwrite it) |
| `LightClient.ProcessNewBlock` | relayer/src/light_client/mod.rs:187-190 | when the provider returns no block, nothing changes: no store change, no finality change, no event |
| `LightClient.ProcessNewBlockFrame` | relayer/src/light_client/mod.rs:202-217 | processing a block leaves the set of chains and every other chain's store unchanged |
| `LightClient.ProcessLinked` | relayer/src/light_client/mod.rs:201-233 | a header whose parent is the tail is pushed with no reorg, and exactly one `NewBlock` follows |
| `LightClient.ProcessReorg` | relayer/src/light_client/mod.rs:201-233 | a header not linking to the tail runs the walk (depth 1..length, keeping a prefix), pushes onto what is left, and emits exactly `Reorg` then `NewBlock` |
| `LightClient.UpdateStoreShape` | relayer/src/light_client/mod.rs:201-216 | afterwards the new header is the tail, the length is at most 1000, and the others are a contiguous run of the old store in order, reaching the old tail when there was no reorg |
| `LightClient.ProcessNewBlockAppends` | relayer/src/light_client/mod.rs:219-233 | processing a block only appends events, at most two, and leaves every other chain's finality alone |
| `LightClient.UpdateFinalized` | relayer/src/light_client/mod.rs:219-223 | above 15 the chain's finality becomes 15 below the requested number; at or below 15 nothing changes; other chains keep theirs |
| `LightClient.ProcessFinality` | relayer/src/light_client/mod.rs:219-223 | finality becomes `blockNumber - 15` only when `blockNumber > 15` and a block was returned, and is unchanged otherwise |
| `LightClient.ProcessUnknownChain` | relayer/src/light_client/mod.rs:202-233 | for a chain without a store no header is kept, but `NewBlock` is still emitted |
| `LightClient.PollChain` | relayer/src/light_client/mod.rs:155-162 | a poll whose guard fails (no store, empty store, or height not above the tail) changes nothing; any poll keeps the set of chains, leaves other chains' stores and finality alone, and only appends at most two events |
| `LightClient.PollNewBlocks` | relayer/src/light_client/mod.rs:150-178 | with neither chain ahead of its tail nothing changes; otherwise only the two polled chains' stores can change, and at most four events are appended after the old ones |
| `LightClient.PollSkipsEmptyStore` | relayer/src/light_client/mod.rs:155-156 | a chain with an empty store is left alone by polling |
| `LightClient.PollAtOrBelowTail` | relayer/src/light_client/mod.rs:157-158 | a provider height at or below the tail's number makes polling a no-op |
| `LightClient.EmptyStoreStaysEmpty` | relayer/src/light_client/mod.rs:150-178 | once a chain's store is empty it stays empty through any sequence of polls |
| `LightClient.PollKeepsIncreasing` | relayer/src/light_client/mod.rs:155-216 | with an honest provider a poll keeps every store strictly increasing by number, reorg or not |
| `LightClient.PollKeepsBounded` | relayer/src/light_client/mod.rs:211-216 | every poll keeps every store at 1000 headers or fewer |
| `LightClient.NewThenPollInvariants` | relayer/src/light_client/mod.rs:81-178 | with honest providers construction and a following two-chain poll leave every store increasing and bounded |
| `LightClient.PollFinalizedBelowTail` | relayer/src/light_client/mod.rs:211-223 | with an honest provider, after a poll appends the block at the provider's height (above 15), finality is exactly 15 below the new tail |
| `LightClient.BackfillGapsFinalizedAboveTail` | relayer/src/light_client/mod.rs:109-131 | with an honest provider that holds window blocks only below `current - 15`, the store is non-empty yet its tail is below the finalized height |
| `LightClient.NextEvent` | relayer/src/light_client/mod.rs:143-147 | `next_event` polls both chains, then hands out the oldest buffered event and keeps the rest in order, or waits when none is buffered |
| `LightClient.NextEventWithoutProgress` | relayer/src/light_client/mod.rs:143-147 | with no chain advancing, `next_event` yields the oldest buffered event and keeps the rest, and yields nothing from an empty buffer |
| `LightClient.GetHeader` | relayer/src/light_client/mod.rs:257-262 | a header is returned iff the chain is known and one of its stored headers has the hash, and then it is the first such header |
| `LightClient.GetFinalized` | relayer/src/light_client/mod.rs:265-267 | a value is returned iff the chain has a finalized height, and it is that height |
| `LightClient.FinalizedQuery` | relayer/src/light_client/mod.rs:129-131 | after backfill the query returns `current - 15` saturating for that chain, and nothing for a chain never synced |
| `LightClient.VerifyInclusion` | relayer/src/light_client/mod.rs:270-283 | true iff the chain is known and the first header with the block hash has a transactions root equal to the Merkle fold of the transaction over the proof; false for unknown blocks |
| `ProofGenerator.GenerateDummyProof` | relayer/src/prover/mod.rs:253-261 | the proof is 192 zero bytes, whatever the secret, randomness and path |
| `ProofGenerator.PadAddress` | relayer/src/prover/mod.rs:172-174 | bytes 0..12 are zero and bytes 12..32 are the recipient |
| `ProofGenerator.EncodeU64` | relayer/src/prover/mod.rs:176-178 | bytes 0..24 are zero and bytes 24..32 decode big-endian to the value |
| `ProofGenerator.GenerateProof` | relayer/src/prover/mod.rs:143-250 | the proof data is 192 zero bytes for every request, and the reported time is the measured one |
| `ProofGenerator.GenerateThenDecode` | relayer/src/prover/mod.rs:146-235 | reading back the tag and public inputs yields exactly the request's public statement |
| `ProofGenerator.DecodeThenGenerate` | relayer/src/prover/mod.rs:146-235 | public inputs that read back as a request's statement are exactly the ones generated for it, tag included |
| `ProofGenerator.OutputIgnoresPrivateInputs` | relayer/src/prover/mod.rs:146-235 | requests with equal public parts give equal outputs, so secrets, randomness, Merkle path and indices, ciphertexts and the private `value` never show |
| `ProofGenerator.WithdrawalInputs` | relayer/src/prover/mod.rs:168-180 | the tag is `"withdrawal"` and the inputs are root, nullifier, right-aligned recipient, then big-endian amount |
| `ProofGenerator.TransferInputs` | relayer/src/prover/mod.rs:195-199 | the tag is `"transfer"` and the inputs are root, nullifier, then the two new commitments |
| `ProofGenerator.ConsistencyInputs` | relayer/src/prover/mod.rs:211-215 | the tag is `"consistency"` and the only input is the Pedersen commitment |
| `ProofGenerator.RangeInputs` | relayer/src/prover/mod.rs:226-233 | the tag is `"range"` and the inputs are the commitment, then the big-endian minimum |
| `ProverService.New` | relayer/src/prover/mod.rs:76-114 | a new service has every permit free and nothing queued, running or replied |
| `ProverService.IsAvailable` | relayer/src/prover/mod.rs:132-134 | never available when disabled; in a valid state, available iff enabled with fewer running jobs than permits |
| `ProverService.QueueDepth` | relayer/src/prover/mod.rs:137-139 | the depth is at most `max_concurrent`, and in a valid state it is the number of running jobs, not counting queued requests |
| `ProverService.Generate` | relayer/src/prover/mod.rs:117-129 | a disabled service rejects with `ServiceDisabled` and changes nothing; an enabled one appends the request to the queue with a fresh reply id and leaves permits alone |
| `ProverService.Dispatch` | relayer/src/prover/mod.rs:88-94 | with a queued request and a free permit, the oldest request takes one permit and starts running; otherwise the worker waits and nothing changes |
| `ProverService.Complete` | relayer/src/prover/mod.rs:94-105 | a finishing job sends exactly one reply, either its proof or a timeout error, then releases its permit and leaves the running set |
| `ProverService.DepthCountsRunningJobs` | relayer/src/prover/mod.rs:132-139 | `queue_depth` is the number of running jobs, and `is_available` holds iff enabled with fewer running jobs than permits |
| `ProverService.FreshService` | relayer/src/prover/mod.rs:289-299 | a fresh service has queue depth 0 and is available iff enabled with at least one permit |
| `ProverService.DisabledRejects` | relayer/src/prover/mod.rs:268-286 | with the service disabled, `generate` fails and the queue depth does not move |
| `ProverService.StepsPreserveValid` | relayer/src/prover/mod.rs:87-139 | submitting, dispatching and completing each keep free permits plus running jobs equal to `max_concurrent`, and every request id distinct and below the next id |
| `ProverService.GeneratePreservesValid` | relayer/src/prover/mod.rs:117-123 | an accepted request gets an id no request had before, and the permit and id invariants still hold |
| `ProverService.DispatchPreservesValid` | relayer/src/prover/mod.rs:88-94 | a worker turn keeps the same set of request ids and the invariants |
| `ProverService.CompletePreservesValid` | relayer/src/prover/mod.rs:94-105 | a completion moves the job's id from running to the replies, keeping the invariants |
| `ProverService.OneReplyPerRequest` | relayer/src/prover/mod.rs:94-105 | in a valid state no request is answered twice, and no queued or running request has been answered |
| `ProverService.PermitReturned` | relayer/src/prover/mod.rs:89-105 | dispatching a request and completing it restores the free permits and running set, and adds one reply for that request |
| `ProverService.DispatchTimesMoves` | relayer/src/prover/mod.rs:88-92 | after `k` worker turns, `min(k, queued, free)` requests have moved in order from the queue to running, each taking a permit |
| `ProverService.OneWaitsWhenSaturated` | relayer/src/prover/mod.rs:87-92 | with `n` permits and `n + 1` queued requests, `n` run and exactly one waits; the service is unavailable with depth `n` |

## Left out

- `process_new_block` as given is rejected by Rust's borrow checker. The `headers` borrow taken at relayer/src/light_client/mod.rs:202 is still live at the push on line 211. In between, `self.handle_reorg` borrows the client mutably on line 206. The model takes the evident reading: a single vector, popped by the walk and then pushed.
- RPC provider calls and `get_chainid`: they are inputs to each step (the `Provider` value). The `?` propagation is not modelled either. In the source, a failing RPC aborts the rest of the tick, including the second chain's poll.
- `block.number.unwrap()` and `block.hash.unwrap()`: a returned header's fields are taken as given, so these panics are not modelled. The strict-increase lemmas assume a provider that labels each block with the requested number (`Honest`).
- The event channel's capacity of 1000 and the blocking `send().await`: events go into an unbounded queue.
- `LightClient.NextEvent`: it returns `None` where the source would keep waiting. The source's `recv()` never returns `None` while the client holds the sender.
- Event depth is an unbounded `nat` rather than a `u64`. It never exceeds the store length, so wrap-around cannot happen.
- Keccak-256 internals: the hash is a function parameter. Claims that rest on collision resistance are not stated.
- `shutdown` and logging: neither has an effect on state.
- tokio `spawn`, `Semaphore`, `mpsc` and `timeout`, plus `Instant`: the model keeps only the permit counter, the FIFO queue and the replies. The elapsed milliseconds and whether a job's deadline passed (`timeout_secs`) are inputs to `ProverService.Complete`. The request channel's capacity of 100 is not modelled. The `permit.is_err()` branch and the "Prover channel closed" error are left out too, because the semaphore is never closed.
- `ProverService.Complete`: `timedOut` over-approximates the source. `generate_proof` has no await point, and tokio's `timeout` polls the inner future before it checks the deadline. So, reading the code, `ProofTimeout` cannot occur with this generator, yet the model allows it.
- `ProverService.Complete`: it completes the job at a caller-chosen index. Jobs may finish in any order, and the scheduler picking that order is not modelled.
- relayer/src/p2p/mod.rs and relayer/src/main.rs are not part of this model. They are network plumbing and process glue.
