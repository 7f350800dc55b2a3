/** The per-chain header sequence of the light client
    (relayer/src/light_client/mod.rs): the stored header record, the
    push-then-prune step, the reorg walk and the lookup by hash. */
module HeaderStore {
  import opened Bytes
  import opened Wrappers

  /** `StoredHeader`: the fields the light client keeps of a block. */
  datatype StoredHeader = StoredHeader(
    blockNumber: u64,
    blockHash: Word,
    parentHash: Word,
    stateRoot: Word,
    transactionsRoot: Word,
    receiptsRoot: Word,
    timestamp: u64)

  /** At most this many headers are retained per chain. */
  const MAX_HEADERS: nat := 1000

  ghost predicate StrictlyIncreasing(hs: seq<StoredHeader>) {
    forall i, j :: 0 <= i < j < |hs| ==> hs[i].blockNumber < hs[j].blockNumber
  }

  /** Pruning after a push: while the store holds more than 1000 headers,
      the oldest one is removed. */
  function Prune(hs: seq<StoredHeader>): (r: seq<StoredHeader>)
    ensures |r| <= MAX_HEADERS
    ensures |hs| <= MAX_HEADERS ==> r == hs
    ensures |hs| > MAX_HEADERS ==> |r| == MAX_HEADERS
    ensures r == hs[|hs| - |r|..]
    decreases |hs|
  {
    if |hs| > MAX_HEADERS then Prune(hs[1..]) else hs
  }

  /** Appending a header and then pruning: the new header becomes the tail,
      what precedes it is a suffix of the old sequence, and a full store
      loses exactly its oldest header. */
  function Push(hs: seq<StoredHeader>, h: StoredHeader): (r: seq<StoredHeader>)
    ensures 1 <= |r| <= MAX_HEADERS && |r| <= |hs| + 1
    ensures r[|r| - 1] == h
    ensures r[..|r| - 1] == hs[|hs| + 1 - |r|..]
    ensures |hs| < MAX_HEADERS ==> r == hs + [h]
    ensures |hs| >= MAX_HEADERS ==> |r| == MAX_HEADERS
  {
    var r := Prune(hs + [h]);
    assert r[..|r| - 1] == hs[|hs| + 1 - |r|..];
    r
  }

  /** Outcome of the reorg walk: the headers left in the store and the number
      of headers popped. */
  datatype Truncation = Truncation(kept: seq<StoredHeader>, depth: nat)

  /** `handle_reorg`: pop from the tail, counting every popped header, and
      stop after popping one whose hash is `parentHash` (that header is
      counted and removed too) or when the store is exhausted. */
  function HandleReorg(hs: seq<StoredHeader>, parentHash: Word): (r: Truncation)
    ensures |r.kept| + r.depth == |hs|
    ensures r.kept == hs[..|r.kept|]
    ensures |hs| > 0 ==> r.depth >= 1
    ensures forall j :: |r.kept| < j < |hs| ==> hs[j].blockHash != parentHash
    ensures r.kept != [] ==> r.depth >= 1 && hs[|r.kept|].blockHash == parentHash
    decreases |hs|
  {
    if |hs| == 0 then Truncation(hs, 0)
    else if hs[|hs| - 1].blockHash == parentHash then Truncation(hs[..|hs| - 1], 1)
    else
      var t := HandleReorg(hs[..|hs| - 1], parentHash);
      Truncation(t.kept, t.depth + 1)
  }

  /** When `parentHash` occurs in the store, the walk stops at its LAST
      occurrence and removes it together with everything above it. */
  lemma HandleReorgAtLastMatch(hs: seq<StoredHeader>, parentHash: Word, i: nat)
    requires i < |hs| && hs[i].blockHash == parentHash
    requires forall j :: i < j < |hs| ==> hs[j].blockHash != parentHash
    ensures HandleReorg(hs, parentHash) == Truncation(hs[..i], |hs| - i)
  {
  }

  /** When no stored header has hash `parentHash`, the walk empties the
      store and reports its whole length as the depth. */
  lemma HandleReorgExhausts(hs: seq<StoredHeader>, parentHash: Word)
    requires forall j :: 0 <= j < |hs| ==> hs[j].blockHash != parentHash
    ensures HandleReorg(hs, parentHash) == Truncation([], |hs|)
  {
  }

  /** Three stored headers and a new header whose parent is the oldest one:
      the walk pops all three, the common ancestor included. */
  lemma HandleReorgPopsAncestor(h0: StoredHeader, h1: StoredHeader, h2: StoredHeader, parentHash: Word)
    requires h0.blockHash == parentHash
    requires h1.blockHash != parentHash && h2.blockHash != parentHash
    ensures HandleReorg([h0, h1, h2], parentHash) == Truncation([], 3)
  {
    HandleReorgAtLastMatch([h0, h1, h2], parentHash, 0);
  }

  /** Index of the first header at or after `from` whose hash is `hash`. */
  function FindFrom(hs: seq<StoredHeader>, hash: Word, from: nat): (r: Option<nat>)
    requires from <= |hs|
    ensures r.Some? ==> from <= r.value < |hs| && hs[r.value].blockHash == hash
    ensures r.Some? ==> forall j :: from <= j < r.value ==> hs[j].blockHash != hash
    ensures r.None? ==> forall j :: from <= j < |hs| ==> hs[j].blockHash != hash
    decreases |hs| - from
  {
    if from == |hs| then None
    else if hs[from].blockHash == hash then Some(from)
    else FindFrom(hs, hash, from + 1)
  }

  /** The lookup of `get_header`: scanning from the oldest header, the first
      one carrying the given hash, if any. */
  function Find(hs: seq<StoredHeader>, hash: Word): (r: Option<StoredHeader>)
    ensures r.Some? <==> exists i :: 0 <= i < |hs| && hs[i].blockHash == hash
    ensures r.Some? ==> exists i :: 0 <= i < |hs| && hs[i] == r.value
                                    && (forall j :: 0 <= j < i ==> hs[j].blockHash != hash)
    ensures r.Some? ==> r.value.blockHash == hash
  {
    match FindFrom(hs, hash, 0)
    case Some(i) => Some(hs[i])
    case None => None
  }

  lemma SliceIncreasing(hs: seq<StoredHeader>, lo: nat, hi: nat)
    requires StrictlyIncreasing(hs) && lo <= hi <= |hs|
    ensures StrictlyIncreasing(hs[lo..hi])
  {
  }

  /** Pushing a header numbered above every stored one keeps the store
      strictly increasing. */
  lemma PushIncreasing(hs: seq<StoredHeader>, h: StoredHeader)
    requires StrictlyIncreasing(hs)
    requires forall i :: 0 <= i < |hs| ==> hs[i].blockNumber < h.blockNumber
    ensures StrictlyIncreasing(Push(hs, h))
  {
    var s := hs + [h];
    assert StrictlyIncreasing(s) by {
      forall i, j | 0 <= i < j < |s|
        ensures s[i].blockNumber < s[j].blockNumber
      {
        if j == |hs| {
          assert s[i] == hs[i];
        } else {
          assert s[i] == hs[i] && s[j] == hs[j];
        }
      }
    }
    var r := Prune(s);
    SliceIncreasing(s, |s| - |r|, |s|);
    assert s[|s| - |r|..|s|] == r;
  }
}
