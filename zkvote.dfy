/**
 * frontend/src/hooks/useZKVote.js: building the circuit witness and reshaping the
 * Groth16 proof that snarkjs returns into the calldata the on-chain verifier takes.
 *
 * The proving backend (`groth16.fullProve` with its wasm and zkey) is a function
 * parameter from the witness to its outcome.
 */
module ZKVote {
  import opened Js
  import opened Poseidon

  /** Two coordinates (snarkjs may append more, such as the projective "1"). */
  type Coords = s: seq<string> | |s| >= 2 witness ["0", "0"]

  /** The coordinate pairs of a G2 point (snarkjs appends a third, ["1", "0"]). */
  type CoordPairs = s: seq<Coords> | |s| >= 2 witness [["0", "0"], ["0", "0"]]

  /** A proof as `groth16.fullProve` returns it: decimal-string coordinates. */
  datatype RawProof = RawProof(piA: Coords, piB: CoordPairs, piC: Coords)

  datatype ProveOutcome = Proved(proof: RawProof, publicSignals: seq<string>) | ProveFailed(message: string)

  /** The circuit input, every field a decimal string ("0"/"1" for the vote). */
  datatype Witness = Witness(
    secret: string, nullifier: string, vote: string,
    proposalId: string, commitment: string, nullifierHash: string)

  /** What `generateProof` resolves to. */
  datatype VoteProof = VoteProof(
    pA: seq<string>, pB: seq<seq<string>>, pC: seq<string>, pubSignals: seq<string>,
    commitment: nat, nullifierHash: nat)

  // ---------------------------------------------------------------------------
  // Field elements of the quadratic extension, and their two encodings
  // ---------------------------------------------------------------------------

  /** An element re + im·u of the degree-2 extension field, coordinates as decimal strings. */
  datatype Fp2 = Fp2(re: string, im: string)

  /** snarkjs lists an extension-field element real part first. */
  function FromSnarkjs(c: Coords): Fp2
  {
    Fp2(c[0], c[1])
  }

  /**
   * The verifier's encoding, from the Specification section of EIP-197: the
   * element a·i + b is written (a, b), imaginary part first.
   */
  function Eip197Encoding(x: Fp2): seq<string>
  {
    [x.im, x.re]
  }

  /** One inner pair of `pB`, reversed (useZKVote.js:46-47). */
  function SwapPair(c: Coords): (r: Coords)
  {
    [c[1], c[0]]
  }

  /** Reversing a pair is re-encoding the element from snarkjs' order into EIP-197's. */
  lemma SwapPairIsEip197(c: Coords)
    ensures SwapPair(c) == Eip197Encoding(FromSnarkjs(c))
  {
  }

  /** Swapping twice gives back the two coordinates that were swapped. */
  lemma SwapPairTwice(c: Coords)
    ensures SwapPair(SwapPair(c)) == c[..2]
  {
  }

  // ---------------------------------------------------------------------------
  // Witness and calldata
  // ---------------------------------------------------------------------------

  function Commitment(h: Hasher, secret: int, nullifier: int): nat
  {
    h([secret, nullifier])
  }

  function NullifierHash(h: Hasher, nullifier: int, proposalId: nat): nat
  {
    h([nullifier, proposalId])
  }

  /** `vote ? "1" : "0"`. */
  function VoteFlag(vote: bool): (f: string)
    ensures f == "1" <==> vote
    ensures f == "0" <==> !vote
  {
    if vote then "1" else "0"
  }

  /** The witness of useZKVote.js:30-39, built from the hashes of lines 27-28. */
  function BuildWitness(h: Hasher, secret: int, nullifier: int, vote: bool, proposalId: nat): Witness
  {
    Witness(
      IntToDecimal(secret), IntToDecimal(nullifier), VoteFlag(vote),
      IntToDecimal(proposalId), IntToDecimal(Commitment(h, secret, nullifier)),
      IntToDecimal(NullifierHash(h, nullifier, proposalId)))
  }

  /**
   * Every number in the witness is written so that `BigInt` reads back exactly
   * the value the client hashed or will publish; the vote is "1" exactly for yes.
   */
  lemma WitnessReadsBack(h: Hasher, secret: int, nullifier: int, vote: bool, proposalId: nat)
    ensures var w := BuildWitness(h, secret, nullifier, vote, proposalId);
      && BigIntOf(w.secret) == Some(secret) && BigIntOf(w.nullifier) == Some(nullifier)
      && BigIntOf(w.proposalId) == Some(proposalId as int)
      && BigIntOf(w.commitment) == Some(h([secret, nullifier]) as int)
      && BigIntOf(w.nullifierHash) == Some(h([nullifier, proposalId]) as int)
      && (w.vote == "1" <==> vote) && (w.vote == "0" <==> !vote)
  {
    IntDecimalRoundTrip(secret);
    IntDecimalRoundTrip(nullifier);
    IntDecimalRoundTrip(proposalId);
    IntDecimalRoundTrip(Commitment(h, secret, nullifier));
    IntDecimalRoundTrip(NullifierHash(h, nullifier, proposalId));
  }

  /**
   * useZKVote.js:44-53: the first two coordinates of `pi_a` and `pi_c`, each
   * `pi_b` pair in the verifier's order, and the public signals as they came.
   */
  function FormatProof(raw: RawProof, publicSignals: seq<string>, commitment: nat, nullifierHash: nat): (p: VoteProof)
    ensures p.pA == raw.piA[..2] && p.pC == raw.piC[..2]
    ensures |p.pB| == 2
    ensures forall i :: 0 <= i < 2 ==> p.pB[i] == Eip197Encoding(FromSnarkjs(raw.piB[i]))
    ensures p.pubSignals == publicSignals
    ensures p.commitment == commitment && p.nullifierHash == nullifierHash
  {
    VoteProof(
      [raw.piA[0], raw.piA[1]],
      [SwapPair(raw.piB[0]), SwapPair(raw.piB[1])],
      [raw.piC[0], raw.piC[1]],
      publicSignals,
      commitment, nullifierHash)
  }

  /**
   * What `generateProof({secret, nullifier, vote, proposalId})` settles to, given
   * the hasher and the proving backend: the error of whichever step threw, or the
   * calldata.
   */
  function ProofFor(hasher: HasherOutcome, secret: int, nullifier: int, vote: bool, proposalId: nat,
                    prove: Witness -> ProveOutcome): (r: Result<VoteProof>)
  {
    match hasher
    case Unavailable(m) => Err(m)
    case Ready(h) =>
      match prove(BuildWitness(h, secret, nullifier, vote, proposalId))
      case ProveFailed(m) => Err(m)
      case Proved(raw, signals) =>
        Ok(FormatProof(raw, signals, Commitment(h, secret, nullifier), NullifierHash(h, nullifier, proposalId)))
  }

  /**
   * A proof is produced exactly when the hasher and the backend both succeed; it
   * carries the backend's public signals unchanged, and the commitment and
   * nullifier hash it returns are the values the witness was given.
   */
  lemma ProofForSpec(hasher: HasherOutcome, secret: int, nullifier: int, vote: bool, proposalId: nat,
                     prove: Witness -> ProveOutcome)
    ensures var r := ProofFor(hasher, secret, nullifier, vote, proposalId, prove);
      && (r.Ok? <==> hasher.Ready? && prove(BuildWitness(hasher.hasher, secret, nullifier, vote, proposalId)).Proved?)
      && (r.Ok? ==>
            var w := BuildWitness(hasher.hasher, secret, nullifier, vote, proposalId);
            && r.value.pubSignals == prove(w).publicSignals
            && BigIntOf(w.commitment) == Some(r.value.commitment as int)
            && BigIntOf(w.nullifierHash) == Some(r.value.nullifierHash as int)
            && r.value.commitment == hasher.hasher([secret, nullifier])
            && r.value.nullifierHash == hasher.hasher([nullifier, proposalId]))
  {
    if hasher.Ready? {
      WitnessReadsBack(hasher.hasher, secret, nullifier, vote, proposalId);
    }
  }

  /**
   * The nullifier hash depends only on the nullifier and the proposal, so
   * repeating a vote attempt on the same proposal yields the same value, whatever
   * the secret or the choice.
   */
  lemma NullifierHashRepeatable(hasher: Hasher, s1: int, s2: int, nullifier: int, v1: bool, v2: bool,
                                proposalId: nat, prove: Witness -> ProveOutcome)
    requires ProofFor(Ready(hasher), s1, nullifier, v1, proposalId, prove).Ok?
    requires ProofFor(Ready(hasher), s2, nullifier, v2, proposalId, prove).Ok?
    ensures ProofFor(Ready(hasher), s1, nullifier, v1, proposalId, prove).value.nullifierHash
         == ProofFor(Ready(hasher), s2, nullifier, v2, proposalId, prove).value.nullifierHash
  {
  }

  // ---------------------------------------------------------------------------
  // The hook and its `generating` flag
  // ---------------------------------------------------------------------------

  /** The state of one `useZKVote()` hook. */
  class ZKVoteHook {
    var generating: bool
    /** `generating` as it stood each time the proving backend was called. */
    ghost var flagAtProve: seq<bool>

    constructor ()
      ensures !generating && flagAtProve == []
    {
      generating := false;
      flagAtProve := [];
    }

    /**
     * `generateProof`: raises `generating`, hashes twice through the Poseidon
     * cache (`built` is what a build would settle to), proves and formats, and
     * lowers `generating` again on success and on failure alike.
     */
    method GenerateProof(cache: PoseidonCache, built: HasherOutcome, secret: int, nullifier: int, vote: bool,
                         proposalId: nat, prove: Witness -> ProveOutcome) returns (r: Result<VoteProof>)
      requires cache.Valid()
      modifies this, cache
      ensures cache.Valid() && cache.instance == Cached(old(cache.instance), built)
      ensures cache.attempts == old(cache.attempts) + (if old(cache.instance).None? then 1 else 0)
      ensures !generating
      ensures flagAtProve == old(flagAtProve) + (if Resolve(old(cache.instance), built).Ready? then [true] else [])
      ensures r == ProofFor(Resolve(old(cache.instance), built), secret, nullifier, vote, proposalId, prove)
    {
      generating := true;
      var commitment := cache.Hash(built, [secret, nullifier]);
      if commitment.Err? {
        r := Err(commitment.message);
      } else {
        var h := cache.instance.value;
        var nullifierHash := cache.Hash(built, [nullifier, proposalId]);
        var input := BuildWitness(h, secret, nullifier, vote, proposalId);
        flagAtProve := flagAtProve + [generating];
        var outcome := prove(input);
        match outcome {
          case ProveFailed(m) =>
            r := Err(m);
          case Proved(raw, publicSignals) =>
            var pA := [raw.piA[0], raw.piA[1]];
            var pB := [[raw.piB[0][1], raw.piB[0][0]], [raw.piB[1][1], raw.piB[1][0]]];
            var pC := [raw.piC[0], raw.piC[1]];
            var pubSignals := publicSignals;
            r := Ok(VoteProof(pA, pB, pC, pubSignals, commitment.value, nullifierHash.value));
        }
      }
      generating := false;
    }
  }
}
