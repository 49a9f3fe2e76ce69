/**
 * frontend/src/components/RegisterModal.jsx: generating a credential (secret,
 * nullifier and their commitment), downloading it, and registering the
 * commitment.
 *
 * The Poseidon instance and the random bytes are parameters; the download is
 * recorded as the credential file it would write.
 */
module Register {
  import opened Js
  import opened Poseidon

  /** The JSON object written to `voting-credentials.json`. */
  datatype CredentialFile = CredentialFile(secret: string, nullifier: string, commitment: string)

  /**
   * Three strings that are the decimal forms of two field elements and of the
   * commitment `h` gives them.
   */
  ghost predicate IsCredential(secret: string, nullifier: string, commitment: string,
                               secretValue: nat, nullifierValue: nat, commitmentValue: nat, h: Hasher)
  {
    && secret == NatToDecimal(secretValue) && nullifier == NatToDecimal(nullifierValue)
    && commitment == NatToDecimal(commitmentValue)
    && commitmentValue == h([secretValue, nullifierValue])
    && secretValue < FieldOrder && nullifierValue < FieldOrder
  }

  /** The state of one open registration dialog. */
  class RegisterModal {
    var secret: string
    var nullifier: string
    var commitment: string
    var computing: bool
    var saved: bool
    /** The numbers behind the three strings, and the hasher that produced the commitment. */
    ghost var secretValue: nat
    ghost var nullifierValue: nat
    ghost var commitmentValue: nat
    ghost var hasher: Hasher
    /** Every credential file downloaded, oldest first. */
    ghost var downloads: seq<CredentialFile>

    /** The credential file the Download button would write now. */
    function Current(): CredentialFile
      reads this`secret, this`nullifier, this`commitment
    {
      CredentialFile(secret, nullifier, commitment)
    }

    /**
     * Before the first generation all three strings are empty; after it they are
     * the decimal strings of two field elements and of their commitment. When
     * `saved` is up, the latest download is the credential on screen.
     */
    ghost predicate Valid()
      reads this`secret, this`nullifier, this`commitment, this`saved, this`downloads
      reads this`secretValue, this`nullifierValue, this`commitmentValue, this`hasher
    {
      && (commitment == "" ==> secret == "" && nullifier == "")
      && (commitment != "" ==>
            IsCredential(secret, nullifier, commitment, secretValue, nullifierValue, commitmentValue, hasher))
      && (saved ==> downloads != [] && downloads[|downloads| - 1] == Current())
    }

    constructor ()
      ensures Valid()
      ensures secret == "" && nullifier == "" && commitment == "" && !computing && !saved && downloads == []
    {
      secret := "";
      nullifier := "";
      commitment := "";
      computing := false;
      saved := false;
      secretValue, nullifierValue, commitmentValue := 0, 0, 0;
      hasher := _ => 0;
      downloads := [];
    }

    /** The Generate button is disabled while `computing || loading`. */
    predicate GenerateEnabled(loading: bool)
      reads this
    {
      !(computing || loading)
    }

    /** The Register button is shown (a commitment exists) and enabled (`saved && !loading`). */
    predicate RegisterEnabled(loading: bool)
      reads this
    {
      commitment != "" && saved && !loading
    }

    /**
     * `handleGenerate`: two field elements from the two 31-byte samples, their
     * commitment from the cached Poseidon instance (`built` is what a build would
     * settle to), all three stored as decimal strings, and `saved` cleared. When
     * no instance can be had the credential stays as it was. `computing` is down
     * afterwards either way.
     */
    method HandleGenerate(cache: PoseidonCache, built: HasherOutcome, secretBytes: seq<Byte>, nullifierBytes: seq<Byte>)
      requires Valid() && cache.Valid()
      requires |secretBytes| == ByteCount && |nullifierBytes| == ByteCount
      modifies this`computing, this`secret, this`nullifier, this`commitment, this`saved
      modifies this`secretValue, this`nullifierValue, this`commitmentValue, this`hasher, cache
      ensures Valid() && cache.Valid() && cache.instance == Cached(old(cache.instance), built)
      ensures cache.attempts == old(cache.attempts) + (if old(cache.instance).None? then 1 else 0)
      ensures !computing && downloads == old(downloads)
      ensures var poseidon := Resolve(old(cache.instance), built);
        poseidon.Ready? ==>
        && secretValue == RandomFieldElement(secretBytes) && nullifierValue == RandomFieldElement(nullifierBytes)
        && secret == NatToDecimal(secretValue) && nullifier == NatToDecimal(nullifierValue)
        && commitment == NatToDecimal(poseidon.hasher([secretValue, nullifierValue]))
        && !saved
      ensures Resolve(old(cache.instance), built).Unavailable? ==>
        secret == old(secret) && nullifier == old(nullifier) && commitment == old(commitment) && saved == old(saved)
    {
      ghost var poseidon := Resolve(cache.instance, built);
      computing := true;
      var s := RandomFieldElement(secretBytes);
      var n := RandomFieldElement(nullifierBytes);
      var c := cache.Hash(built, [s, n]);
      match c {
        case Err(_) =>
        case Ok(v) =>
          RandomFieldElementBound(secretBytes);
          RandomFieldElementBound(nullifierBytes);
          Store(s, n, v, cache.instance.value);
      }
      computing := false;
    }

    /** The three state updates of a successful generation, and the reset of `saved`. */
    method Store(s: nat, n: nat, c: nat, ghost h: Hasher)
      requires s < FieldOrder && n < FieldOrder && c == h([s, n])
      modifies this`secret, this`nullifier, this`commitment, this`saved
      modifies this`secretValue, this`nullifierValue, this`commitmentValue, this`hasher
      ensures Valid()
      ensures secretValue == s && nullifierValue == n && commitmentValue == c && hasher == h
      ensures secret == NatToDecimal(s) && nullifier == NatToDecimal(n) && commitment == NatToDecimal(c)
      ensures !saved
    {
      secret, nullifier, commitment := NatToDecimal(s), NatToDecimal(n), NatToDecimal(c);
      secretValue, nullifierValue, commitmentValue, hasher := s, n, c, h;
      saved := false;
    }

    /** `handleSave`: the file holds exactly the three current strings, and `saved` goes up. */
    method HandleSave() returns (file: CredentialFile)
      requires Valid()
      modifies this`saved, this`downloads
      ensures Valid()
      ensures file == CredentialFile(secret, nullifier, commitment)
      ensures saved && downloads == old(downloads) + [file]
    {
      file := CredentialFile(secret, nullifier, commitment);
      downloads := downloads + [file];
      saved := true;
    }

    /**
     * `handleSubmit`: nothing without a commitment; otherwise the integer that
     * `BigInt` reads from the stored string, which is the commitment computed.
     */
    method HandleSubmit() returns (registered: Option<int>)
      requires Valid()
      ensures commitment == "" ==> registered == None
      ensures commitment != "" ==> registered == Some(commitmentValue as int)
    {
      if commitment == "" {
        return None;
      }
      DecimalParses(commitmentValue);
      registered := BigIntOf(commitment);
    }

    /**
     * A click on the Register button: only an enabled button reaches
     * `handleSubmit`, so what is registered is always the commitment of the
     * credential file last downloaded.
     */
    method ClickRegister(loading: bool) returns (registered: Option<int>)
      requires Valid()
      ensures registered.Some? <==> RegisterEnabled(loading)
      ensures registered.Some? ==>
        && downloads != []
        && downloads[|downloads| - 1] == Current()
        && BigIntOf(downloads[|downloads| - 1].commitment) == registered
        && registered.value == hasher([secretValue, nullifierValue]) as int
    {
      if !RegisterEnabled(loading) {
        return None;
      }
      var last := downloads[|downloads| - 1];
      assert last.commitment == NatToDecimal(commitmentValue);
      DecimalParses(commitmentValue);
      registered := HandleSubmit();
    }
  }
}
