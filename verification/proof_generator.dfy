/** `generate_proof` of relayer/src/prover/mod.rs: a pure mapping from a
    proof request to a kind tag, a placeholder proof buffer and the ordered
    public inputs. The wall-clock duration is a parameter. */
module ProofGenerator {
  import opened Bytes
  import opened Wrappers

  /** A 20-byte account address. */
  type Address = s: seq<byte> | |s| == 20 witness Zeros(20)

  /** Size of a Groth16 proof; the placeholder buffer has this length. */
  const PROOF_SIZE: nat := 192

  /** `ProofRequest`. */
  datatype ProofRequest =
    | Withdrawal(
        merkleRoot: Word, nullifier: Word, recipient: Address, amount: u64,
        secret: Word, randomness: Word, merklePath: seq<Word>, merkleIndices: seq<byte>)
    | Transfer(
        merkleRoot: Word, nullifier: Word, newCommitmentA: Word, newCommitmentB: Word,
        secret: Word, randomness: Word, merklePath: seq<Word>, merkleIndices: seq<byte>)
    | Consistency(
        pedersenCommitment: Word, paillierCiphertext: seq<byte>, value: u64,
        pedersenRandomness: Word, paillierRandomness: seq<byte>)
    | Range(commitment: Word, minValue: u64, value: u64, randomness: Word)

  /** `GeneratedProof`. */
  datatype GeneratedProof = GeneratedProof(
    proofType: string,
    proofData: seq<byte>,
    publicInputs: seq<Word>,
    generationTimeMs: u64)

  /** `generate_dummy_proof`: a zero buffer of proof size, whatever the
      secret, randomness or Merkle path. */
  function GenerateDummyProof(secret: Word, randomness: Word, merklePath: seq<Word>): (proof: seq<byte>)
    ensures |proof| == PROOF_SIZE && AllZero(proof)
  {
    Zeros(PROOF_SIZE)
  }

  /** The recipient right-aligned in a word: 12 zero bytes, then the address. */
  function PadAddress(recipient: Address): (w: Word)
    ensures AllZero(w[..12]) && w[12..] == recipient
  {
    Zeros(12) + recipient
  }

  /** A `u64` big-endian in the last 8 bytes of a word, 24 zero bytes before. */
  function EncodeU64(x: u64): (w: Word)
    ensures AllZero(w[..24]) && FromBigEndian(w[24..]) == x
  {
    U64RoundTrip(x);
    var w := Zeros(24) + ToBigEndian(x, 8);
    assert w[24..] == ToBigEndian(x, 8);
    w
  }

  /** `generate_proof`, with the measured duration passed in. */
  function GenerateProof(request: ProofRequest, elapsedMs: u64): (g: GeneratedProof)
    ensures |g.proofData| == PROOF_SIZE && AllZero(g.proofData)
    ensures g.generationTimeMs == elapsedMs
  {
    match request
    case Withdrawal(merkleRoot, nullifier, recipient, amount, secret, randomness, merklePath, _) =>
      GeneratedProof(
        "withdrawal",
        GenerateDummyProof(secret, randomness, merklePath),
        [merkleRoot, nullifier, PadAddress(recipient), EncodeU64(amount)],
        elapsedMs)
    case Transfer(merkleRoot, nullifier, newCommitmentA, newCommitmentB, secret, randomness, merklePath, _) =>
      GeneratedProof(
        "transfer",
        GenerateDummyProof(secret, randomness, merklePath),
        [merkleRoot, nullifier, newCommitmentA, newCommitmentB],
        elapsedMs)
    case Consistency(pedersenCommitment, _, _, pedersenRandomness, _) =>
      GeneratedProof(
        "consistency",
        GenerateDummyProof(pedersenRandomness, Zeros(32), []),
        [pedersenCommitment],
        elapsedMs)
    case Range(commitment, minValue, _, randomness) =>
      GeneratedProof(
        "range",
        GenerateDummyProof(randomness, Zeros(32), []),
        [commitment, EncodeU64(minValue)],
        elapsedMs)
  }

  // ---------------------------------------------------------------------
  // The public statement a proof is about, and how a verifier reads it back

  /** The public part of each request kind: what an on-chain verifier
      learns. Secrets, randomness, Merkle paths and private values are not
      part of it. */
  datatype PublicStatement =
    | WithdrawalStatement(merkleRoot: Word, nullifier: Word, recipient: Address, amount: u64)
    | TransferStatement(merkleRoot: Word, nullifier: Word, newCommitmentA: Word, newCommitmentB: Word)
    | ConsistencyStatement(pedersenCommitment: Word)
    | RangeStatement(commitment: Word, minValue: u64)

  function PublicPart(request: ProofRequest): PublicStatement {
    match request
    case Withdrawal(merkleRoot, nullifier, recipient, amount, _, _, _, _) =>
      WithdrawalStatement(merkleRoot, nullifier, recipient, amount)
    case Transfer(merkleRoot, nullifier, a, b, _, _, _, _) =>
      TransferStatement(merkleRoot, nullifier, a, b)
    case Consistency(pedersenCommitment, _, _, _, _) => ConsistencyStatement(pedersenCommitment)
    case Range(commitment, minValue, _, _) => RangeStatement(commitment, minValue)
  }

  /** Reads a big-endian `u64` word back; `None` unless its first 24 bytes
      are zero. */
  function DecodeU64(w: Word): (r: Option<u64>)
    ensures r.Some? <==> AllZero(w[..24])
  {
    if AllZero(w[..24]) then
      U64Decodes(w[24..]);
      Some(FromBigEndian(w[24..]))
    else None
  }

  /** Reads an address word back; `None` unless its first 12 bytes are zero. */
  function DecodeAddress(w: Word): (r: Option<Address>)
    ensures r.Some? <==> AllZero(w[..12])
  {
    if AllZero(w[..12]) then Some(w[12..]) else None
  }

  /** The verifier's reading of a tag and public inputs. */
  function DecodePublicInputs(tag: string, inputs: seq<Word>): Option<PublicStatement> {
    if tag == "withdrawal" && |inputs| == 4 then
      match (DecodeAddress(inputs[2]), DecodeU64(inputs[3]))
      case (Some(recipient), Some(amount)) =>
        Some(WithdrawalStatement(inputs[0], inputs[1], recipient, amount))
      case _ => None
    else if tag == "transfer" && |inputs| == 4 then
      Some(TransferStatement(inputs[0], inputs[1], inputs[2], inputs[3]))
    else if tag == "consistency" && |inputs| == 1 then
      Some(ConsistencyStatement(inputs[0]))
    else if tag == "range" && |inputs| == 2 then
      match DecodeU64(inputs[1])
      case Some(minValue) => Some(RangeStatement(inputs[0], minValue))
      case None => None
    else None
  }

  lemma DecodeEncodeU64(x: u64)
    ensures DecodeU64(EncodeU64(x)) == Some(x)
  {
  }

  lemma {:induction false} EncodeDecodeU64(w: Word, x: u64)
    requires DecodeU64(w) == Some(x)
    ensures EncodeU64(x) == w
  {
    ToFromBigEndian(w[24..]);
    var e := EncodeU64(x);
    assert e[24..] == ToBigEndian(x, 8);
    assert e[..24] == w[..24];
    assert e == e[..24] + e[24..] && w == w[..24] + w[24..];
  }

  lemma EncodeDecodeAddress(w: Word, a: Address)
    requires DecodeAddress(w) == Some(a)
    ensures PadAddress(a) == w
  {
    var e := PadAddress(a);
    assert e[..12] == w[..12];
    assert e == e[..12] + e[12..] && w == w[..12] + w[12..];
  }

  /** Reading the generated public inputs back yields exactly the request's
      public statement. */
  lemma GenerateThenDecode(request: ProofRequest, elapsedMs: u64)
    ensures var g := GenerateProof(request, elapsedMs);
            DecodePublicInputs(g.proofType, g.publicInputs) == Some(PublicPart(request))
  {
    match request
    case Withdrawal(_, _, recipient, amount, _, _, _, _) =>
      DecodeEncodeU64(amount);
      assert DecodeAddress(PadAddress(recipient)) == Some(recipient);
    case Transfer(_, _, _, _, _, _, _, _) =>
    case Consistency(_, _, _, _, _) =>
    case Range(_, minValue, _, _) =>
      DecodeEncodeU64(minValue);
  }

  /** Conversely, public inputs that read back as a request's statement are
      exactly what the generator produces for that request, tag included. */
  lemma DecodeThenGenerate(tag: string, inputs: seq<Word>, request: ProofRequest, elapsedMs: u64)
    requires DecodePublicInputs(tag, inputs) == Some(PublicPart(request))
    ensures GenerateProof(request, elapsedMs).proofType == tag
    ensures GenerateProof(request, elapsedMs).publicInputs == inputs
  {
    match request
    case Withdrawal(_, _, recipient, amount, _, _, _, _) =>
      EncodeDecodeAddress(inputs[2], recipient);
      EncodeDecodeU64(inputs[3], amount);
    case Transfer(_, _, _, _, _, _, _, _) =>
    case Consistency(_, _, _, _, _) =>
    case Range(_, minValue, _, _) =>
      EncodeDecodeU64(inputs[1], minValue);
  }

  /** The output depends on the public statement alone: secrets,
      randomness, Merkle paths and indices, ciphertexts and the private
      `value` never reach it. */
  lemma OutputIgnoresPrivateInputs(r1: ProofRequest, r2: ProofRequest, elapsedMs: u64)
    requires PublicPart(r1) == PublicPart(r2)
    ensures GenerateProof(r1, elapsedMs) == GenerateProof(r2, elapsedMs)
  {
  }

  /** Withdrawal layout: tag `"withdrawal"`, then root, nullifier, the
      right-aligned recipient and the big-endian amount. */
  lemma WithdrawalInputs(request: ProofRequest, elapsedMs: u64)
    requires request.Withdrawal?
    ensures var g := GenerateProof(request, elapsedMs);
            var ins := g.publicInputs;
            && g.proofType == "withdrawal"
            && |ins| == 4
            && ins[0] == request.merkleRoot && ins[1] == request.nullifier
            && AllZero(ins[2][..12]) && ins[2][12..] == request.recipient
            && AllZero(ins[3][..24]) && FromBigEndian(ins[3][24..]) == request.amount
  {
  }

  /** Transfer layout: tag `"transfer"`, root, nullifier, both new commitments. */
  lemma TransferInputs(request: ProofRequest, elapsedMs: u64)
    requires request.Transfer?
    ensures var g := GenerateProof(request, elapsedMs);
            && g.proofType == "transfer"
            && g.publicInputs == [request.merkleRoot, request.nullifier, request.newCommitmentA, request.newCommitmentB]
  {
  }

  /** Consistency layout: tag `"consistency"`, the Pedersen commitment only. */
  lemma ConsistencyInputs(request: ProofRequest, elapsedMs: u64)
    requires request.Consistency?
    ensures var g := GenerateProof(request, elapsedMs);
            g.proofType == "consistency" && g.publicInputs == [request.pedersenCommitment]
  {
  }

  /** Range layout: tag `"range"`, the commitment and the big-endian minimum. */
  lemma RangeInputs(request: ProofRequest, elapsedMs: u64)
    requires request.Range?
    ensures var g := GenerateProof(request, elapsedMs);
            var ins := g.publicInputs;
            && g.proofType == "range"
            && |ins| == 2 && ins[0] == request.commitment
            && AllZero(ins[1][..24]) && FromBigEndian(ins[1][24..]) == request.minValue
  {
  }
}
