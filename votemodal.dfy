/**
 * frontend/src/components/VoteModal.jsx: loading a credential file or typing the
 * secret and nullifier, choosing yes or no, and submitting: parse the two
 * numbers, generate the proof, hand it to `onVote`, and close.
 *
 * Reading and parsing the file, the proving backend and `onVote` are
 * parameters; `alert` is the message returned.
 */
module Vote {
  import opened Js
  import opened Poseidon
  import opened ZKVote
  import opened Register

  /** What the file input delivers: no file, text that is no JSON object, or the two fields read. */
  datatype FileInput = NoFile | Unreadable | Parsed(secret: Option<string>, nullifier: Option<string>)

  /** The credential check of `handleFileUpload`. */
  predicate Accepts(input: FileInput)
  {
    input.Parsed? && Truthy(input.secret) && Truthy(input.nullifier)
  }

  const InvalidFileMsg := "Invalid credentials file."

  /** A credential file written by the registration dialog, as `JSON.parse` reads it back. */
  function ReadBack(file: CredentialFile): FileInput
  {
    Parsed(Some(file.secret), Some(file.nullifier))
  }

  /** The arguments `onVote` receives. */
  datatype VoteArgs = VoteArgs(
    proposalId: nat, support: bool,
    pA: seq<string>, pB: seq<seq<string>>, pC: seq<string>, pubSignals: seq<string>)

  /** How the `onVote` promise settles; a rejection carries the text the alert shows. */
  datatype VoteSettled = VoteDone | VoteThrew(text: string)

  /** What a call of `handleSubmit` amounts to. */
  datatype SubmitResult = Ignored | Alerted(message: string) | Submitted(args: VoteArgs)

  const AlertPrefix := "Failed to generate proof: "

  /**
   * The message of the `SyntaxError` that `BigInt` throws on a string it cannot
   * read, in the wording of the V8 engine; other engines word it differently.
   */
  function BigIntError(s: string): string
  {
    "Cannot convert " + s + " to a BigInt"
  }

  /** `handleSubmit`'s guard: a choice and both credentials. */
  predicate SubmitGuard(support: Option<bool>, secret: string, nullifier: string)
  {
    support.Some? && secret != "" && nullifier != ""
  }

  /** The submit button is enabled exactly when `!(busy || support === null || !secret || !nullifier)`. */
  predicate SubmitEnabledFor(busy: bool, support: Option<bool>, secret: string, nullifier: string)
  {
    !(busy || support.None? || secret == "" || nullifier == "")
  }

  /** `onVote(proposalId, support, result.pA, result.pB, result.pC, result.pubSignals)`. */
  function ArgsOf(proposalId: nat, support: bool, p: VoteProof): VoteArgs
  {
    VoteArgs(proposalId, support, p.pA, p.pB, p.pC, p.pubSignals)
  }

  /** Proving with the parsed numbers, then `onVote`. */
  function ProveAndSend(proposalId: nat, support: bool, secret: int, nullifier: int, hasher: HasherOutcome,
                        prove: Witness -> ProveOutcome, onVote: VoteArgs -> VoteSettled): SubmitResult
  {
    match ProofFor(hasher, secret, nullifier, support, proposalId, prove)
    case Err(m) => Alerted(AlertPrefix + m)
    case Ok(p) =>
      var args := ArgsOf(proposalId, support, p);
      match onVote(args)
      case VoteThrew(t) => Alerted(AlertPrefix + t)
      case VoteDone => Submitted(args)
  }

  /** The calls of `onVote` made after the numbers were read: one exactly when a proof was generated. */
  function ProveCalls(proposalId: nat, support: bool, secret: int, nullifier: int, hasher: HasherOutcome,
                      prove: Witness -> ProveOutcome): seq<VoteArgs>
  {
    match ProofFor(hasher, secret, nullifier, support, proposalId, prove)
    case Err(_) => []
    case Ok(p) => [ArgsOf(proposalId, support, p)]
  }

  /**
   * How far `handleSubmit` gets before proving: stopped by the guard, stopped by
   * the `SyntaxError` of a `BigInt` call (with its message), or on with the
   * choice and the two numbers.
   */
  datatype ParseStep = Skip | ParseFailed(message: string) | Numbers(support: bool, secret: int, nullifier: int)

  /** The guard, then `BigInt(secret)`, then `BigInt(nullifier)`. */
  function Parse(support: Option<bool>, secret: string, nullifier: string): ParseStep
  {
    if !SubmitGuard(support, secret, nullifier) then Skip
    else match BigIntOf(secret)
      case None => ParseFailed(BigIntError(secret))
      case Some(s) =>
        match BigIntOf(nullifier)
        case None => ParseFailed(BigIntError(nullifier))
        case Some(n) => Numbers(support.value, s, n)
  }

  /**
   * `handleSubmit` reaches the prover exactly when the guard passes and `BigInt`
   * reads both strings; a failed read reports the first string that fails.
   */
  lemma ParseSpec(support: Option<bool>, secret: string, nullifier: string)
    ensures Parse(support, secret, nullifier).Numbers? <==>
      SubmitGuard(support, secret, nullifier) && BigIntOf(secret).Some? && BigIntOf(nullifier).Some?
    ensures Parse(support, secret, nullifier).Numbers? ==>
      var p := Parse(support, secret, nullifier);
      support == Some(p.support) && BigIntOf(secret) == Some(p.secret) && BigIntOf(nullifier) == Some(p.nullifier)
    ensures Parse(support, secret, nullifier).Skip? <==> !SubmitGuard(support, secret, nullifier)
    ensures Parse(support, secret, nullifier).ParseFailed? ==>
      Parse(support, secret, nullifier).message
        == BigIntError(if BigIntOf(secret).None? then secret else nullifier)
  {
  }

  /** What `handleSubmit` does with the form as it stands. */
  function SubmitOutcome(proposalId: nat, support: Option<bool>, secret: string, nullifier: string,
                         hasher: HasherOutcome, prove: Witness -> ProveOutcome,
                         onVote: VoteArgs -> VoteSettled): SubmitResult
  {
    match Parse(support, secret, nullifier)
    case Skip => Ignored
    case ParseFailed(m) => Alerted(AlertPrefix + m)
    case Numbers(b, s, n) => ProveAndSend(proposalId, b, s, n, hasher, prove, onVote)
  }

  /** `handleSubmit` gets as far as `generateProof`: the guard passed and `BigInt` read both fields. */
  predicate ProofAttempted(support: Option<bool>, secret: string, nullifier: string)
  {
    Parse(support, secret, nullifier).Numbers?
  }

  /** The calls of `onVote` that one `handleSubmit` makes. */
  function OnVoteCalls(proposalId: nat, support: Option<bool>, secret: string, nullifier: string,
                       hasher: HasherOutcome, prove: Witness -> ProveOutcome): seq<VoteArgs>
  {
    match Parse(support, secret, nullifier)
    case Numbers(b, s, n) => ProveCalls(proposalId, b, s, n, hasher, prove)
    case _ => []
  }

  /**
   * `onVote` is called at most once, and a submission is exactly a call that
   * resolved. When the call rejected, the alert carries the rejection's text;
   * every other alert comes from a step before `onVote`, which was then not called.
   */
  lemma OnVoteCallsSpec(proposalId: nat, support: Option<bool>, secret: string, nullifier: string,
                        hasher: HasherOutcome, prove: Witness -> ProveOutcome, onVote: VoteArgs -> VoteSettled)
    ensures var calls, r := OnVoteCalls(proposalId, support, secret, nullifier, hasher, prove),
                            SubmitOutcome(proposalId, support, secret, nullifier, hasher, prove, onVote);
      && |calls| <= 1
      && (r.Submitted? <==> calls != [] && onVote(calls[0]) == VoteDone)
      && (r.Submitted? ==> calls == [r.args])
      && (r.Alerted? && calls != [] ==> onVote(calls[0]).VoteThrew? && r.message == AlertPrefix + onVote(calls[0]).text)
      && (calls != [] ==> ProofAttempted(support, secret, nullifier))
  {
  }

  /**
   * `handleSubmit` does nothing exactly when the guard fails; otherwise it either
   * alerts or submits, and it submits only what the proof generator produced,
   * after `onVote` has resolved.
   */
  lemma SubmitOutcomeSpec(proposalId: nat, support: Option<bool>, secret: string, nullifier: string,
                          hasher: HasherOutcome, prove: Witness -> ProveOutcome, onVote: VoteArgs -> VoteSettled)
    ensures var r := SubmitOutcome(proposalId, support, secret, nullifier, hasher, prove, onVote);
      && (r == Ignored <==> !SubmitGuard(support, secret, nullifier))
      && (r.Submitted? ==>
            && BigIntOf(secret).Some? && BigIntOf(nullifier).Some?
            && var p := ProofFor(hasher, BigIntOf(secret).value, BigIntOf(nullifier).value, support.value, proposalId, prove);
            && p.Ok?
            && r.args == VoteArgs(proposalId, support.value, p.value.pA, p.value.pB, p.value.pC, p.value.pubSignals)
            && onVote(r.args) == VoteDone)
  {
  }

  /** The submit button is enabled exactly when nothing is busy and the guard of `handleSubmit` passes. */
  lemma SubmitEnabledIff(busy: bool, proposalId: nat, support: Option<bool>, secret: string, nullifier: string,
                         hasher: HasherOutcome, prove: Witness -> ProveOutcome, onVote: VoteArgs -> VoteSettled)
    ensures SubmitEnabledFor(busy, support, secret, nullifier)
        <==> !busy && SubmitOutcome(proposalId, support, secret, nullifier, hasher, prove, onVote) != Ignored
  {
    SubmitOutcomeSpec(proposalId, support, secret, nullifier, hasher, prove, onVote);
  }

  /**
   * A credential file downloaded from the registration dialog is accepted on
   * upload, its two strings read back as the registered secret and nullifier,
   * and any proof generated from them carries the registered commitment.
   */
  lemma RegisteredCredentialVotes(file: CredentialFile, secretValue: nat, nullifierValue: nat,
                                  commitmentValue: nat, h: Hasher, proposalId: nat, support: bool,
                                  prove: Witness -> ProveOutcome, onVote: VoteArgs -> VoteSettled)
    requires IsCredential(file.secret, file.nullifier, file.commitment, secretValue, nullifierValue, commitmentValue, h)
    ensures Accepts(ReadBack(file))
    ensures SubmitOutcome(proposalId, Some(support), file.secret, file.nullifier, Ready(h), prove, onVote)
         == ProveAndSend(proposalId, support, secretValue, nullifierValue, Ready(h), prove, onVote)
    ensures var p := ProofFor(Ready(h), secretValue, nullifierValue, support, proposalId, prove);
      p.Ok? ==> p.value.commitment == commitmentValue && BigIntOf(file.commitment) == Some(commitmentValue as int)
  {
    DecimalParses(secretValue);
    DecimalParses(nullifierValue);
    DecimalParses(commitmentValue);
  }

  /** The state of one open vote dialog. */
  class VoteModal {
    const proposalId: nat
    var support: Option<bool>
    var secret: string
    var nullifier: string
    var fileError: string
    /** Whether `onClose` has been called. */
    var closed: bool
    /** The dialog's own `useZKVote()` hook. */
    const zk: ZKVoteHook
    /** Every call of `onVote`, oldest first. */
    ghost var sent: seq<VoteArgs>

    constructor (proposalId: nat)
      ensures this.proposalId == proposalId && support == None && secret == "" && nullifier == ""
      ensures fileError == "" && !closed && sent == []
      ensures fresh(zk) && !zk.generating
    {
      this.proposalId := proposalId;
      support := None;
      secret := "";
      nullifier := "";
      fileError := "";
      closed := false;
      sent := [];
      zk := new ZKVoteHook();
    }

    /** `busy = generating || loading`. */
    predicate Busy(loading: bool)
      reads this, zk
    {
      zk.generating || loading
    }

    predicate SubmitEnabled(loading: bool)
      reads this, zk
    {
      SubmitEnabledFor(Busy(loading), support, secret, nullifier)
    }

    /** The YES and NO buttons. */
    method Choose(choice: bool)
      modifies this`support
      ensures support == Some(choice)
    {
      support := Some(choice);
    }

    /** Typing into the secret field. */
    method EditSecret(value: string)
      modifies this`secret
      ensures secret == value
    {
      secret := value;
    }

    /** Typing into the nullifier field. */
    method EditNullifier(value: string)
      modifies this`nullifier
      ensures nullifier == value
    {
      nullifier := value;
    }

    /**
     * `handleFileUpload` with the reader's `onload`: an accepted file replaces both
     * credentials and clears the error; any other file only sets the error; no
     * file changes nothing.
     */
    method HandleFileUpload(input: FileInput)
      modifies this`secret, this`nullifier, this`fileError
      ensures input.NoFile? ==> secret == old(secret) && nullifier == old(nullifier) && fileError == old(fileError)
      ensures Accepts(input) ==> secret == input.secret.value && nullifier == input.nullifier.value && fileError == ""
      ensures !input.NoFile? && !Accepts(input) ==>
        secret == old(secret) && nullifier == old(nullifier) && fileError == InvalidFileMsg
    {
      match input {
        case NoFile =>
          return;
        case Unreadable =>
          fileError := InvalidFileMsg;
        case Parsed(s, n) =>
          if !Truthy(s) || !Truthy(n) {
            fileError := InvalidFileMsg;
            return;
          }
          secret := s.value;
          nullifier := n.value;
          fileError := "";
      }
    }

    /**
     * `handleSubmit`: the outcome `SubmitOutcome` describes, with the Poseidon
     * instance the cache yields; `onVote` is called once a proof exists, the
     * dialog closes only once `onVote` has resolved, and `generating` is down
     * again whenever a proof was attempted.
     */
    method HandleSubmit(cache: PoseidonCache, built: HasherOutcome, prove: Witness -> ProveOutcome,
                        onVote: VoteArgs -> VoteSettled) returns (r: SubmitResult)
      requires cache.Valid()
      modifies this`closed, this`sent, zk, cache
      ensures cache.Valid()
      ensures cache.instance == if ProofAttempted(support, secret, nullifier) then Cached(old(cache.instance), built)
                                else old(cache.instance)
      ensures zk.generating == if ProofAttempted(support, secret, nullifier) then false else old(zk.generating)
      ensures closed == (old(closed) || r.Submitted?)
      ensures sent == old(sent) + OnVoteCalls(proposalId, support, secret, nullifier, Resolve(old(cache.instance), built), prove)
      ensures zk.flagAtProve == old(zk.flagAtProve)
        + (if ProofAttempted(support, secret, nullifier) && Resolve(old(cache.instance), built).Ready? then [true] else [])
      ensures cache.attempts == old(cache.attempts)
        + (if ProofAttempted(support, secret, nullifier) && old(cache.instance).None? then 1 else 0)
      ensures !ProofAttempted(support, secret, nullifier) ==> cache.builds == old(cache.builds)
      ensures r.Ignored? ==> sent == old(sent) && zk.generating == old(zk.generating)
      ensures r == SubmitOutcome(proposalId, support, secret, nullifier, Resolve(old(cache.instance), built), prove, onVote)
    {
      match Parse(support, secret, nullifier) {
        case Skip =>
          return Ignored;
        case ParseFailed(m) =>
          return Alerted(AlertPrefix + m);
        case Numbers(b, s, n) =>
          r := ProveAndSubmit(cache, built, b, s, n, prove, onVote);
      }
    }

    /** The part of `handleSubmit` after both numbers have been read. */
    method ProveAndSubmit(cache: PoseidonCache, built: HasherOutcome, support: bool, s: int, n: int,
                          prove: Witness -> ProveOutcome, onVote: VoteArgs -> VoteSettled) returns (r: SubmitResult)
      requires cache.Valid()
      modifies this`closed, this`sent, zk, cache
      ensures cache.Valid() && cache.instance == Cached(old(cache.instance), built)
      ensures cache.attempts == old(cache.attempts) + (if old(cache.instance).None? then 1 else 0)
      ensures !zk.generating
      ensures zk.flagAtProve == old(zk.flagAtProve) + (if Resolve(old(cache.instance), built).Ready? then [true] else [])
      ensures closed == (old(closed) || r.Submitted?)
      ensures sent == old(sent) + ProveCalls(proposalId, support, s, n, Resolve(old(cache.instance), built), prove)
      ensures r == ProveAndSend(proposalId, support, s, n, Resolve(old(cache.instance), built), prove, onVote)
    {
      var proof := zk.GenerateProof(cache, built, s, n, support, proposalId, prove);
      if proof.Err? {
        return Alerted(AlertPrefix + proof.message);
      }
      var args := ArgsOf(proposalId, support, proof.value);
      sent := sent + [args];
      match onVote(args) {
        case VoteThrew(t) =>
          return Alerted(AlertPrefix + t);
        case VoteDone =>
      }
      closed := true;
      r := Submitted(args);
    }
  }
}
