/** The light client of relayer/src/light_client/mod.rs as a pure state
    machine: a map from chain id to its header sequence, a map from chain id
    to its finalized height, and the queue of emitted events. Each RPC
    provider is an input value holding the answers it would give. */
module LightClient {
  import opened Bytes
  import opened Wrappers
  import opened HeaderStore
  import Merkle

  /** `finality_depth`, fixed at construction. */
  const FINALITY_DEPTH: u64 := 15

  /** `finality_depth * 2`: how far below the current height backfill starts. */
  const BACKFILL_SPAN: u64 := 30

  /** `LightClientEvent`. The depth is a `u64` in the source; it never
      exceeds the store length, so it is kept unbounded here. */
  datatype Event =
    | NewBlock(chainId: u64, blockNumber: u64, blockHash: Word)
    | Reorg(chainId: u64, depth: nat)

  /** What one chain's RPC provider answers during a step: its chain id,
      its current block number, and the block (if any) it returns for each
      requested number. */
  datatype Provider = Provider(chainId: u64, height: u64, blocks: map<u64, StoredHeader>)

  /** Asking the provider for block `n`: the block it holds under that
      number, or nothing when it holds none. */
  function Fetch(p: Provider, n: u64): (r: Option<StoredHeader>)
    ensures r.Some? <==> n in p.blocks
    ensures r.Some? ==> r.value == p.blocks[n]
  {
    if n in p.blocks then Some(p.blocks[n]) else None
  }

  /** A provider whose blocks carry the numbers they were requested by. */
  ghost predicate Honest(p: Provider) {
    forall n :: n in p.blocks ==> p.blocks[n].blockNumber == n
  }

  /** The state of `LightClient` minus its providers: `headers`,
      `finalized`, and the events buffered in the channel. */
  datatype Client = Client(
    headers: map<u64, seq<StoredHeader>>,
    finalized: map<u64, u64>,
    events: seq<Event>)

  /** Unsigned subtraction that stops at 0 instead of wrapping. */
  function SaturatingSub(a: u64, b: u64): (r: u64)
    ensures a >= b ==> r + b == a
    ensures a < b ==> r == 0
  {
    if a >= b then a - b else 0
  }

  /** The block numbers `sync_headers` requests, in order: from 30 below
      the current height (or from 0) up to and including the current height. */
  function BackfillRequests(current: u64): (r: seq<u64>)
    ensures 1 <= |r| <= BACKFILL_SPAN as int + 1
    ensures r[0] == SaturatingSub(current, BACKFILL_SPAN)
    ensures r[|r| - 1] == current
    ensures forall i :: 0 <= i < |r| ==> r[i] as int == r[0] as int + i
  {
    var start := SaturatingSub(current, BACKFILL_SPAN);
    seq(current - start + 1, i requires 0 <= i <= current - start => start + i)
  }

  /** The headers the provider returns for `requests`, in request order;
      requests it has no block for are skipped. */
  function FetchAll(p: Provider, requests: seq<u64>): (r: seq<StoredHeader>)
    ensures |r| <= |requests|
    ensures forall n :: n in requests && n in p.blocks ==> p.blocks[n] in r
    decreases |requests|
  {
    if |requests| == 0 then []
    else
      var rest := FetchAll(p, requests[1..]);
      assert forall n :: n in requests && n != requests[0] ==> n in requests[1..];
      match Fetch(p, requests[0])
      case Some(h) => [h] + rest
      case None => rest
  }

  /** Indices, from `from` on, of the requests the provider answers, in
      increasing order. */
  function AnsweredFrom(p: Provider, requests: seq<u64>, from: nat): (idx: seq<nat>)
    requires from <= |requests|
    ensures forall k :: 0 <= k < |idx| ==> from <= idx[k] < |requests| && requests[idx[k]] in p.blocks
    ensures forall k, l :: 0 <= k < l < |idx| ==> idx[k] < idx[l]
    ensures forall i :: from <= i < |requests| && requests[i] in p.blocks ==> i in idx
    decreases |requests| - from
  {
    if from == |requests| then []
    else
      var rest := AnsweredFrom(p, requests, from + 1);
      if requests[from] in p.blocks then [from] + rest else rest
  }

  lemma {:induction false} FetchAllFollowsRequests(p: Provider, requests: seq<u64>, from: nat)
    requires from <= |requests|
    ensures var r := FetchAll(p, requests[from..]);
            var idx := AnsweredFrom(p, requests, from);
            && |r| == |idx|
            && (forall k :: 0 <= k < |r| ==> r[k] == p.blocks[requests[idx[k]]])
    decreases |requests| - from
  {
    if from < |requests| {
      var q := requests[from..];
      var rest := FetchAll(p, requests[from + 1..]);
      var idx := AnsweredFrom(p, requests, from + 1);
      FetchAllFollowsRequests(p, requests, from + 1);
      assert q[0] == requests[from] && q[1..] == requests[from + 1..];
      if requests[from] in p.blocks {
        assert FetchAll(p, q) == [p.blocks[requests[from]]] + rest;
        assert AnsweredFrom(p, requests, from) == [from] + idx;
        AnswersCons(p, requests, from, rest, idx);
      } else {
        assert FetchAll(p, q) == rest;
        assert AnsweredFrom(p, requests, from) == idx;
      }
    }
  }

  lemma AnswersCons(p: Provider, requests: seq<u64>, from: nat, rest: seq<StoredHeader>, idx: seq<nat>)
    requires from < |requests| && requests[from] in p.blocks
    requires |rest| == |idx|
    requires forall k :: 0 <= k < |idx| ==> idx[k] < |requests| && requests[idx[k]] in p.blocks
    requires forall k :: 0 <= k < |rest| ==> rest[k] == p.blocks[requests[idx[k]]]
    ensures var r := [p.blocks[requests[from]]] + rest;
            var ix := [from] + idx;
            forall k :: 0 <= k < |r| ==> ix[k] < |requests| && requests[ix[k]] in p.blocks && r[k] == p.blocks[requests[ix[k]]]
  {
    var r := [p.blocks[requests[from]]] + rest;
    var ix := [from] + idx;
    forall k | 1 <= k < |r|
      ensures ix[k] < |requests| && requests[ix[k]] in p.blocks && r[k] == p.blocks[requests[ix[k]]]
    {
      assert r[k] == rest[k - 1] && ix[k] == idx[k - 1];
    }
  }

  /** Whatever the provider answers, backfill collects exactly the answers
      to the requests it answers, one per such request, in request order. */
  lemma FetchAllExactly(p: Provider, requests: seq<u64>)
    ensures var r := FetchAll(p, requests);
            var idx := AnsweredFrom(p, requests, 0);
            && |r| == |idx|
            && (forall k :: 0 <= k < |r| ==> r[k] == p.blocks[requests[idx[k]]])
  {
    FetchAllFollowsRequests(p, requests, 0);
    assert requests[0..] == requests;
  }

  /** `sync_headers`: replace the chain's store with the backfilled window
      and set its finalized height to `current - 15`, saturating at 0; no
      other chain and no event is touched. */
  function SyncHeaders(c: Client, p: Provider): (r: Client)
    ensures r.events == c.events
    ensures r.headers.Keys == c.headers.Keys + {p.chainId}
    ensures forall id :: id in c.headers && id != p.chainId ==> r.headers[id] == c.headers[id]
    ensures r.finalized.Keys == c.finalized.Keys + {p.chainId}
    ensures forall id :: id in c.finalized && id != p.chainId ==> r.finalized[id] == c.finalized[id]
    ensures r.finalized[p.chainId] == SaturatingSub(p.height, FINALITY_DEPTH)
  {
    Client(
      c.headers[p.chainId := FetchAll(p, BackfillRequests(p.height))],
      c.finalized[p.chainId := SaturatingSub(p.height, FINALITY_DEPTH)],
      c.events)
  }

  /** `LightClient::new` / `sync_initial`: backfill Ethereum, then Arbitrum. */
  function New(eth: Provider, arb: Provider): (c: Client)
    ensures c.events == []
    ensures c.headers.Keys == {eth.chainId, arb.chainId} && c.finalized.Keys == {eth.chainId, arb.chainId}
    ensures c.finalized[arb.chainId] == SaturatingSub(arb.height, FINALITY_DEPTH)
    ensures eth.chainId != arb.chainId ==> c.finalized[eth.chainId] == SaturatingSub(eth.height, FINALITY_DEPTH)
  {
    SyncHeaders(SyncHeaders(Client(map[], map[], []), eth), arb)
  }

  /** Whether a new header fails to link to the tail of a non-empty store. */
  predicate IsReorg(hs: seq<StoredHeader>, h: StoredHeader) {
    |hs| > 0 && h.parentHash != hs[|hs| - 1].blockHash
  }

  /** The reorg walk when the header does not link, nothing otherwise. */
  function Resolve(hs: seq<StoredHeader>, h: StoredHeader): Truncation {
    if IsReorg(hs, h) then HandleReorg(hs, h.parentHash) else Truncation(hs, 0)
  }

  /** The events `process_new_block` sends for a header arriving on a store
      `hs`: a `Reorg` first when the walk ran, then the `NewBlock`. */
  function BlockEvents(chainId: u64, hs: seq<StoredHeader>, h: StoredHeader): seq<Event> {
    (if IsReorg(hs, h) then [Reorg(chainId, Resolve(hs, h).depth)] else [])
    + [NewBlock(chainId, h.blockNumber, h.blockHash)]
  }

  /** The finality update: only when the requested number exceeds 15, and
      then to 15 below it; other chains keep theirs. */
  function UpdateFinalized(finalized: map<u64, u64>, chainId: u64, blockNumber: u64): (r: map<u64, u64>)
    ensures blockNumber > FINALITY_DEPTH ==>
              r.Keys == finalized.Keys + {chainId}
              && r[chainId] as int + FINALITY_DEPTH as int == blockNumber as int
    ensures blockNumber <= FINALITY_DEPTH ==> r == finalized
    ensures forall id :: id in finalized && id != chainId ==> id in r && r[id] == finalized[id]
  {
    if blockNumber > FINALITY_DEPTH then finalized[chainId := blockNumber - FINALITY_DEPTH] else finalized
  }

  /** `process_new_block` for the block the provider returned (`fetched`)
      at `blockNumber`. A chain without a store keeps none, but its
      finality still moves and `NewBlock` is still sent. */
  function ProcessNewBlock(c: Client, chainId: u64, blockNumber: u64, fetched: Option<StoredHeader>): (r: Client)
    ensures fetched.None? ==> r == c
  {
    match fetched
    case None => c
    case Some(h) =>
      var hs := if chainId in c.headers then c.headers[chainId] else [];
      var headers :=
        if chainId in c.headers then c.headers[chainId := Push(Resolve(hs, h).kept, h)] else c.headers;
      Client(headers, UpdateFinalized(c.finalized, chainId, blockNumber), c.events + BlockEvents(chainId, hs, h))
  }

  /** The guard `poll_new_blocks` applies to one chain: it has a store, the
      store has a last header, and the provider is above that header. */
  predicate ShouldAdvance(c: Client, p: Provider) {
    p.chainId in c.headers
    && |c.headers[p.chainId]| > 0
    && p.height > c.headers[p.chainId][|c.headers[p.chainId]| - 1].blockNumber
  }

  /** One chain's half of `poll_new_blocks`: it touches only that chain's
      store and finality, and only appends at most two events. */
  function PollChain(c: Client, p: Provider): (r: Client)
    ensures !ShouldAdvance(c, p) ==> r == c
    ensures r.headers.Keys == c.headers.Keys
    ensures forall id :: id in c.headers && id != p.chainId ==> r.headers[id] == c.headers[id]
    ensures forall id :: id in c.finalized && id != p.chainId ==> id in r.finalized && r.finalized[id] == c.finalized[id]
    ensures |c.events| <= |r.events| <= |c.events| + 2 && r.events[..|c.events|] == c.events
  {
    if ShouldAdvance(c, p) then
      var fetched := Fetch(p, p.height);
      ProcessNewBlockFrame(c, p.chainId, p.height, fetched);
      ProcessNewBlockAppends(c, p.chainId, p.height, fetched);
      ProcessNewBlock(c, p.chainId, p.height, fetched)
    else c
  }

  /** `poll_new_blocks`: Ethereum, then Arbitrum. Chains other than these
      two are untouched, and events are only appended. */
  function PollNewBlocks(c: Client, eth: Provider, arb: Provider): (r: Client)
    ensures !ShouldAdvance(c, eth) && !ShouldAdvance(c, arb) ==> r == c
    ensures r.headers.Keys == c.headers.Keys
    ensures forall id :: id in c.headers && id != eth.chainId && id != arb.chainId ==> r.headers[id] == c.headers[id]
    ensures |c.events| <= |r.events| <= |c.events| + 4 && r.events[..|c.events|] == c.events
  {
    var mid := PollChain(c, eth);
    var r := PollChain(mid, arb);
    assert r.events[..|c.events|] == r.events[..|mid.events|][..|c.events|];
    r
  }

  /** Result of `next_event`: the new state and the event handed out, or
      `None` where the source would go on waiting on the channel. */
  datatype Step = Step(client: Client, event: Option<Event>)

  /** `next_event`: poll both chains, then take the oldest buffered event. */
  function NextEvent(c: Client, eth: Provider, arb: Provider): (s: Step)
    ensures var polled := PollNewBlocks(c, eth, arb);
            && (polled.events == [] ==> s == Step(polled, None))
            && (polled.events != [] ==>
                  s.event == Some(polled.events[0])
                  && [polled.events[0]] + s.client.events == polled.events
                  && s.client.headers == polled.headers
                  && s.client.finalized == polled.finalized)
  {
    var polled := PollNewBlocks(c, eth, arb);
    if polled.events == [] then Step(polled, None)
    else Step(polled.(events := polled.events[1..]), Some(polled.events[0]))
  }

  /** `get_header`: the first stored header of the chain with that hash. */
  function GetHeader(c: Client, chainId: u64, blockHash: Word): (r: Option<StoredHeader>)
    ensures r.Some? <==> chainId in c.headers
                         && exists i :: 0 <= i < |c.headers[chainId]| && c.headers[chainId][i].blockHash == blockHash
    ensures r.Some? ==> chainId in c.headers
                        && r.value.blockHash == blockHash
                        && exists i :: 0 <= i < |c.headers[chainId]| && c.headers[chainId][i] == r.value
                                       && forall j :: 0 <= j < i ==> c.headers[chainId][j].blockHash != blockHash
  {
    if chainId in c.headers then Find(c.headers[chainId], blockHash) else None
  }

  /** `get_finalized`. */
  function GetFinalized(c: Client, chainId: u64): (r: Option<u64>)
    ensures r.Some? <==> chainId in c.finalized
    ensures r.Some? ==> r.value == c.finalized[chainId]
  {
    if chainId in c.finalized then Some(c.finalized[chainId]) else None
  }

  /** `verify_inclusion`: false for an unknown block, otherwise the Merkle
      check of the transaction against that header's transactions root. */
  method VerifyInclusion(c: Client, keccak: Merkle.Hasher, chainId: u64, blockHash: Word, txHash: Word, proof: seq<Word>)
    returns (ok: bool)
    ensures ok <==> chainId in c.headers
                    && exists i :: 0 <= i < |c.headers[chainId]|
                                   && c.headers[chainId][i].blockHash == blockHash
                                   && (forall j :: 0 <= j < i ==> c.headers[chainId][j].blockHash != blockHash)
                                   && Merkle.Fold(keccak, txHash, proof) == c.headers[chainId][i].transactionsRoot
  {
    match GetHeader(c, chainId, blockHash)
    case Some(header) =>
      ok := Merkle.VerifyMerkleProof(keccak, txHash, proof, header.transactionsRoot);
    case None =>
      ok := false;
  }

  // ---------------------------------------------------------------------
  // Properties

  ghost predicate AllIncreasing(c: Client) {
    forall id :: id in c.headers ==> StrictlyIncreasing(c.headers[id])
  }

  ghost predicate AllBounded(c: Client) {
    forall id :: id in c.headers ==> |c.headers[id]| <= MAX_HEADERS
  }

  /** Starting at height 100, backfill asks for blocks 70 through 100 and
      the finalized height becomes 85. */
  lemma BackfillFrom100()
    ensures |BackfillRequests(100)| == 31
    ensures BackfillRequests(100)[0] == 70 && BackfillRequests(100)[30] == 100
    ensures SaturatingSub(100, FINALITY_DEPTH) == 85
  {
  }

  /** What an honest provider answers is a header it holds under its own
      number, and that number was requested. */
  lemma {:induction false} FetchAllSound(p: Provider, requests: seq<u64>)
    requires Honest(p)
    ensures forall h :: h in FetchAll(p, requests) ==>
              h.blockNumber in requests && h.blockNumber in p.blocks && h == p.blocks[h.blockNumber]
    decreases |requests|
  {
    if |requests| > 0 {
      var rest := FetchAll(p, requests[1..]);
      FetchAllSound(p, requests[1..]);
      assert forall n :: n in requests[1..] ==> n in requests;
      if requests[0] in p.blocks {
        var r := [p.blocks[requests[0]]] + rest;
        assert r == FetchAll(p, requests);
        forall h | h in r
          ensures h.blockNumber in requests && h.blockNumber in p.blocks && h == p.blocks[h.blockNumber]
        {
          if h != r[0] {
            assert h in rest;
          }
        }
      } else {
        assert rest == FetchAll(p, requests);
      }
    }
  }

  /** Requests all above `bound` get answers all above `bound`. */
  lemma FetchAllAbove(p: Provider, requests: seq<u64>, bound: u64)
    requires Honest(p)
    requires forall i :: 0 <= i < |requests| ==> bound < requests[i]
    ensures forall k :: 0 <= k < |FetchAll(p, requests)| ==> bound < FetchAll(p, requests)[k].blockNumber
  {
    var rest := FetchAll(p, requests);
    FetchAllSound(p, requests);
    forall k | 0 <= k < |rest|
      ensures bound < rest[k].blockNumber
    {
      assert rest[k] in rest;
      var j :| 0 <= j < |requests| && requests[j] == rest[k].blockNumber;
    }
  }

  /** The provider's answers to increasing requests, for an honest
      provider, are strictly increasing by block number. */
  lemma {:induction false} FetchAllIncreasing(p: Provider, requests: seq<u64>)
    requires Honest(p)
    requires forall i, j :: 0 <= i < j < |requests| ==> requests[i] < requests[j]
    ensures StrictlyIncreasing(FetchAll(p, requests))
    decreases |requests|
  {
    if |requests| > 0 {
      var rest := FetchAll(p, requests[1..]);
      FetchAllIncreasing(p, requests[1..]);
      if requests[0] in p.blocks {
        var h := p.blocks[requests[0]];
        FetchAllAbove(p, requests[1..], requests[0]);
        var r := [h] + rest;
        assert r == FetchAll(p, requests);
        forall i, j | 0 <= i < j < |r|
          ensures r[i].blockNumber < r[j].blockNumber
        {
          if i > 0 {
            assert r[i] == rest[i - 1] && r[j] == rest[j - 1];
          }
        }
      }
    }
  }

  /** A store holding exactly the provider's blocks within the backfill
      window of its height, ascending, at most 31 of them. */
  ghost predicate Backfilled(hs: seq<StoredHeader>, p: Provider) {
    && StrictlyIncreasing(hs)
    && |hs| <= BACKFILL_SPAN as int + 1
    && (forall k :: 0 <= k < |hs| ==>
          && SaturatingSub(p.height, BACKFILL_SPAN) <= hs[k].blockNumber <= p.height
          && hs[k].blockNumber in p.blocks
          && hs[k] == p.blocks[hs[k].blockNumber])
    && (forall n :: SaturatingSub(p.height, BACKFILL_SPAN) <= n <= p.height && n in p.blocks ==>
          p.blocks[n] in hs)
  }

  /** `sync_headers` with an honest provider: the chain's store is the
      provider's blocks in `[current - 30, current]`, ascending, at most 31
      of them, and the finalized height is `current - 15` saturating at 0. */
  lemma BackfillStore(c: Client, p: Provider)
    requires Honest(p)
    ensures var r := SyncHeaders(c, p);
            && Backfilled(r.headers[p.chainId], p)
            && r.finalized[p.chainId] == SaturatingSub(p.height, FINALITY_DEPTH)
            && r.events == c.events
            && (forall id :: id in c.headers && id != p.chainId ==> r.headers[id] == c.headers[id])
            && (forall id :: id in c.finalized && id != p.chainId ==> r.finalized[id] == c.finalized[id])
  {
    var requests := BackfillRequests(p.height);
    FetchAllIncreasing(p, requests);
    FetchAllSound(p, requests);
    forall n | SaturatingSub(p.height, BACKFILL_SPAN) <= n <= p.height
      ensures n in requests
    {
      assert requests[n - requests[0]] == n;
    }
    var hs := FetchAll(p, requests);
    forall k | 0 <= k < |hs|
      ensures SaturatingSub(p.height, BACKFILL_SPAN) <= hs[k].blockNumber <= p.height
    {
      assert hs[k] in hs;
      var j :| 0 <= j < |requests| && requests[j] == hs[k].blockNumber;
    }
  }

  /** Construction backfills both chains: each store is its provider's
      window and each finalized height is 15 below its provider's height
      (saturating). When both providers report the same chain id, the
      second sync overwrites the first. */
  lemma NewBackfillsBoth(eth: Provider, arb: Provider)
    requires Honest(eth) && Honest(arb)
    ensures var c := New(eth, arb);
            && Backfilled(c.headers[arb.chainId], arb)
            && c.finalized[arb.chainId] == SaturatingSub(arb.height, FINALITY_DEPTH)
            && (eth.chainId != arb.chainId ==>
                  && Backfilled(c.headers[eth.chainId], eth)
                  && c.finalized[eth.chainId] == SaturatingSub(eth.height, FINALITY_DEPTH))
  {
    var empty := Client(map[], map[], []);
    BackfillStore(empty, eth);
    BackfillStore(SyncHeaders(empty, eth), arb);
  }

  /** The finalized height a query reports: after backfill it is the
      saturating `current - 15`; a chain never synced reports nothing. */
  lemma FinalizedQuery(c: Client, p: Provider, other: u64)
    requires other != p.chainId && other !in c.finalized
    ensures GetFinalized(SyncHeaders(c, p), p.chainId) == Some(SaturatingSub(p.height, FINALITY_DEPTH))
    ensures GetFinalized(SyncHeaders(c, p), other) == None
  {
  }

  /** Polling skips a chain whose store is empty. */
  lemma PollSkipsEmptyStore(c: Client, p: Provider)
    requires p.chainId in c.headers && c.headers[p.chainId] == []
    ensures PollChain(c, p) == c
  {
  }

  /** Polling is a no-op when the provider is not above the stored tail. */
  lemma PollAtOrBelowTail(c: Client, p: Provider)
    requires p.chainId in c.headers && |c.headers[p.chainId]| > 0
    requires p.height <= c.headers[p.chainId][|c.headers[p.chainId]| - 1].blockNumber
    ensures PollChain(c, p) == c
  {
  }

  /** `process_new_block` only rewrites the store of its own chain. */
  lemma ProcessNewBlockFrame(c: Client, chainId: u64, blockNumber: u64, fetched: Option<StoredHeader>)
    ensures var r := ProcessNewBlock(c, chainId, blockNumber, fetched);
            && r.headers.Keys == c.headers.Keys
            && (forall id :: id in c.headers && id != chainId ==> r.headers[id] == c.headers[id])
  {
    match fetched
    case None =>
    case Some(h) =>
      if chainId in c.headers {
        var hs' := Push(Resolve(c.headers[chainId], h).kept, h);
        assert ProcessNewBlock(c, chainId, blockNumber, fetched).headers == c.headers[chainId := hs'];
      }
  }

  /** `process_new_block` only appends events, at most two, and changes no
      other chain's finalized height. */
  lemma ProcessNewBlockAppends(c: Client, chainId: u64, blockNumber: u64, fetched: Option<StoredHeader>)
    ensures var r := ProcessNewBlock(c, chainId, blockNumber, fetched);
            && |c.events| <= |r.events| <= |c.events| + 2
            && r.events[..|c.events|] == c.events
            && (forall id :: id in c.finalized && id != chainId ==> id in r.finalized && r.finalized[id] == c.finalized[id])
  {
    match fetched
    case None =>
      assert c.events[..|c.events|] == c.events;
    case Some(h) =>
      var hs := if chainId in c.headers then c.headers[chainId] else [];
      var r := ProcessNewBlock(c, chainId, blockNumber, fetched);
      assert r.events == c.events + BlockEvents(chainId, hs, h);
      assert r.finalized == UpdateFinalized(c.finalized, chainId, blockNumber);
      assert (c.events + BlockEvents(chainId, hs, h))[..|c.events|] == c.events;
  }

  /** With neither chain advancing, `next_event` hands out the buffered
      events oldest first: the first call yields the first event and leaves
      the rest, and an empty buffer yields nothing. */
  lemma NextEventWithoutProgress(c: Client, eth: Provider, arb: Provider)
    requires !ShouldAdvance(c, eth) && !ShouldAdvance(c, arb)
    ensures c.events == [] ==> NextEvent(c, eth, arb) == Step(c, None)
    ensures c.events != [] ==> NextEvent(c, eth, arb) == Step(c.(events := c.events[1..]), Some(c.events[0]))
  {
  }

  /** Polling any sequence of providers, one tick each. */
  function PollAll(c: Client, providers: seq<Provider>): Client
    decreases |providers|
  {
    if |providers| == 0 then c else PollAll(PollChain(c, providers[0]), providers[1..])
  }

  /** An empty store never refills, whatever the providers answer later. */
  lemma {:induction false} EmptyStoreStaysEmpty(c: Client, providers: seq<Provider>, id: u64)
    requires id in c.headers && c.headers[id] == []
    ensures id in PollAll(c, providers).headers && PollAll(c, providers).headers[id] == []
    decreases |providers|
  {
    if |providers| > 0 {
      var p := providers[0];
      if ShouldAdvance(c, p) {
        ProcessNewBlockFrame(c, p.chainId, p.height, Fetch(p, p.height));
      }
      EmptyStoreStaysEmpty(PollChain(c, p), providers[1..], id);
    }
  }

  /** The new header links to the tail: it is pushed, no reorg is reported,
      and one `NewBlock` event follows. */
  lemma ProcessLinked(c: Client, chainId: u64, blockNumber: u64, h: StoredHeader)
    requires chainId in c.headers && |c.headers[chainId]| > 0
    requires h.parentHash == c.headers[chainId][|c.headers[chainId]| - 1].blockHash
    ensures var r := ProcessNewBlock(c, chainId, blockNumber, Some(h));
            && r.headers[chainId] == Push(c.headers[chainId], h)
            && r.events == c.events + [NewBlock(chainId, h.blockNumber, h.blockHash)]
  {
    var hs := c.headers[chainId];
    assert !IsReorg(hs, h);
    assert Resolve(hs, h) == Truncation(hs, 0);
    assert BlockEvents(chainId, hs, h) == [NewBlock(chainId, h.blockNumber, h.blockHash)];
  }

  /** The new header does not link to the tail: the reorg walk runs, exactly
      one `Reorg` with depth at least 1 is emitted, then the `NewBlock` for
      the new header, which is pushed on what the walk kept. */
  lemma ProcessReorg(c: Client, chainId: u64, blockNumber: u64, h: StoredHeader)
    requires chainId in c.headers && |c.headers[chainId]| > 0
    requires h.parentHash != c.headers[chainId][|c.headers[chainId]| - 1].blockHash
    ensures var hs := c.headers[chainId];
            var t := HandleReorg(hs, h.parentHash);
            var r := ProcessNewBlock(c, chainId, blockNumber, Some(h));
            && 1 <= t.depth <= |hs|
            && t.kept == hs[..|hs| - t.depth]
            && r.headers[chainId] == Push(t.kept, h)
            && r.events == c.events + [Reorg(chainId, t.depth), NewBlock(chainId, h.blockNumber, h.blockHash)]
  {
    var hs := c.headers[chainId];
    assert IsReorg(hs, h);
    assert Resolve(hs, h) == HandleReorg(hs, h.parentHash);
    assert BlockEvents(chainId, hs, h)
        == [Reorg(chainId, HandleReorg(hs, h.parentHash).depth), NewBlock(chainId, h.blockNumber, h.blockHash)];
  }

  /** Shape of a store after the new header arrives: the header is the
      tail, at most 1000 headers remain, and the others are a contiguous run
      of the old store in their old order; without a reorg that run reaches
      the old tail. */
  lemma UpdateStoreShape(hs: seq<StoredHeader>, h: StoredHeader)
    ensures var hs' := Push(Resolve(hs, h).kept, h);
            && 1 <= |hs'| <= MAX_HEADERS
            && hs'[|hs'| - 1] == h
            && (exists lo, hi :: 0 <= lo <= hi <= |hs| && hs'[..|hs'| - 1] == hs[lo..hi])
            && (!IsReorg(hs, h) ==> hs'[..|hs'| - 1] == hs[|hs| + 1 - |hs'|..])
  {
    var t := Resolve(hs, h);
    assert t.kept == hs[..|t.kept|] && |t.kept| <= |hs|;
    var hs' := Push(t.kept, h);
    var lo := |t.kept| + 1 - |hs'|;
    assert hs'[..|hs'| - 1] == t.kept[lo..];
    assert t.kept[lo..] == hs[lo..|t.kept|];
  }

  /** Finality follows the requested number: `blockNumber - 15` when that is
      positive, unchanged otherwise; a missing block changes nothing. */
  lemma ProcessFinality(c: Client, chainId: u64, blockNumber: u64, fetched: Option<StoredHeader>)
    ensures var r := ProcessNewBlock(c, chainId, blockNumber, fetched);
            && (fetched.Some? && blockNumber > FINALITY_DEPTH ==>
                  r.finalized == c.finalized[chainId := blockNumber - FINALITY_DEPTH])
            && (fetched.None? || blockNumber <= FINALITY_DEPTH ==> r.finalized == c.finalized)
  {
  }

  /** For a chain without a store, `process_new_block` keeps no header but
      still emits `NewBlock`. */
  lemma ProcessUnknownChain(c: Client, chainId: u64, blockNumber: u64, h: StoredHeader)
    requires chainId !in c.headers
    ensures var r := ProcessNewBlock(c, chainId, blockNumber, Some(h));
            && r.headers == c.headers
            && r.events == c.events + [NewBlock(chainId, h.blockNumber, h.blockHash)]
  {
  }

  /** A header numbered above the old tail keeps an increasing store
      increasing, with or without a reorg. */
  lemma UpdateStoreIncreasing(hs: seq<StoredHeader>, h: StoredHeader)
    requires StrictlyIncreasing(hs) && |hs| > 0
    requires hs[|hs| - 1].blockNumber < h.blockNumber
    ensures StrictlyIncreasing(Push(Resolve(hs, h).kept, h))
  {
    var t := Resolve(hs, h);
    SliceIncreasing(hs, 0, |t.kept|);
    assert t.kept == hs[0..|t.kept|];
    forall i | 0 <= i < |t.kept|
      ensures t.kept[i].blockNumber < h.blockNumber
    {
      assert t.kept[i] == hs[i];
      assert i == |hs| - 1 || hs[i].blockNumber < hs[|hs| - 1].blockNumber;
    }
    PushIncreasing(t.kept, h);
  }

  /** With an honest provider one poll keeps every store strictly
      increasing by block number. */
  lemma PollKeepsIncreasing(c: Client, p: Provider)
    requires Honest(p) && AllIncreasing(c)
    ensures AllIncreasing(PollChain(c, p))
  {
    if ShouldAdvance(c, p) && p.height in p.blocks {
      var hs := c.headers[p.chainId];
      var h := p.blocks[p.height];
      UpdateStoreIncreasing(hs, h);
      var r := PollChain(c, p);
      assert r.headers[p.chainId] == Push(Resolve(hs, h).kept, h);
      forall id | id in r.headers
        ensures StrictlyIncreasing(r.headers[id])
      {
        if id != p.chainId {
          assert r.headers[id] == c.headers[id];
        }
      }
    }
  }

  /** Every poll keeps every store within the retention bound. */
  lemma PollKeepsBounded(c: Client, p: Provider)
    requires AllBounded(c)
    ensures AllBounded(PollChain(c, p))
  {
    if ShouldAdvance(c, p) {
      ProcessNewBlockFrame(c, p.chainId, p.height, Fetch(p, p.height));
    }
  }

  /** Construction from honest providers yields increasing, bounded stores,
      and one tick of `poll_new_blocks` keeps them so. */
  lemma NewThenPollInvariants(eth: Provider, arb: Provider, eth2: Provider, arb2: Provider)
    requires Honest(eth) && Honest(arb) && Honest(eth2) && Honest(arb2)
    ensures var c := New(eth, arb);
            && AllIncreasing(c) && AllBounded(c)
            && AllIncreasing(PollNewBlocks(c, eth2, arb2)) && AllBounded(PollNewBlocks(c, eth2, arb2))
  {
    var empty := Client(map[], map[], []);
    var c1 := SyncHeaders(empty, eth);
    BackfillStore(empty, eth);
    BackfillStore(c1, arb);
    var c := New(eth, arb);
    assert AllIncreasing(c) && AllBounded(c);
    PollKeepsIncreasing(c, eth2);
    PollKeepsBounded(c, eth2);
    PollKeepsIncreasing(PollChain(c, eth2), arb2);
    PollKeepsBounded(PollChain(c, eth2), arb2);
  }

  /** After a poll that appends the block at the provider's height (above
      15), the finalized height lies exactly 15 below the new tail. */
  lemma PollFinalizedBelowTail(c: Client, p: Provider)
    requires Honest(p) && ShouldAdvance(c, p) && p.height in p.blocks && p.height > FINALITY_DEPTH
    ensures var r := PollChain(c, p);
            var hs := r.headers[p.chainId];
            && p.chainId in r.finalized
            && r.finalized[p.chainId] as int + FINALITY_DEPTH as int == hs[|hs| - 1].blockNumber as int
  {
    var hs := c.headers[p.chainId];
    var h := p.blocks[p.height];
    UpdateStoreShape(hs, h);
    var r := PollChain(c, p);
    assert r.headers[p.chainId] == Push(Resolve(hs, h).kept, h);
  }

  /** Backfill with gaps can leave the finalized height above every stored
      header: when the provider's blocks in the window all lie below
      `current - 15`, the tail is below the finalized height. */
  lemma BackfillGapsFinalizedAboveTail(c: Client, p: Provider, n: u64)
    requires Honest(p)
    requires forall m :: m in p.blocks ==> m < SaturatingSub(p.height, FINALITY_DEPTH)
    requires n in p.blocks && SaturatingSub(p.height, BACKFILL_SPAN) <= n
    ensures var r := SyncHeaders(c, p);
            var hs := r.headers[p.chainId];
            && hs != []
            && hs[|hs| - 1].blockNumber < r.finalized[p.chainId]
  {
    BackfillStore(c, p);
  }
}
