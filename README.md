# Anonymous voting client: a Dafny model

This project models the browser client of an anonymous on-chain voting
application. A voter generates a secret and a nullifier. The client registers
their Poseidon commitment on chain. To vote, the client proves with a Groth16
zero-knowledge proof that it knows a registered credential. The proof reveals
only a per-proposal nullifier hash, which stops anyone voting twice. The client also lists
proposals, creates and closes them, and reports contract errors as toasts.

The model covers the client's logic:

- `js.dfy`, module `Js`: the JavaScript built-ins the client relies on. These
  are `Number.prototype.toString`, `BigInt(string)`, `trim`, `includes`,
  `slice`, ASCII `toLowerCase`, nullish `??` (as `Option`) and truthiness of
  strings.
- `poseidon.js` (module `Poseidon`): the lazily built, cached Poseidon
  instance. It also covers `randomFieldElement`, which turns 31 random bytes
  into a hex literal and reads it back as a BigInt.
- `useZKVote.js` (module `ZKVote`): the circuit witness, and the reshaping of a
  snarkjs proof into the verifier's calldata. This includes the swap of each
  `pi_b` pair into the imaginary-first order that the Specification section of
  EIP-197 prescribes. The `generating` flag is raised and lowered around the
  proof.
- `useVoting.js` (module `Voting`): `parseError`, the normalised and reversed
  proposal list, and the toast list with its timed removal. It also covers the
  three guarded contract writes and their `loading` flag.
- `RegisterModal.jsx` (module `Register`): generating, downloading and
  registering a credential.
- `VoteModal.jsx` (module `Vote`): loading or typing a credential, choosing,
  proving and voting.
- `ProposalCard.jsx` (module `Card`): the relative age, the shortened address,
  the rounded yes-percentage, the vote-count label, and which buttons show.
- `CreateProposal.jsx` (module `Create`): the new-proposal form.
- `ConnectWallet.jsx` (module `Wallet`): the wallet badge or connect button.

Stateful parts are classes whose methods update their fields: the hook state of
`useVoting` and `useZKVote`, the module-level `_poseidon` cache, and the three
forms. Pure helpers are functions with lemmas about them. Everything outside
the client is a parameter. That covers the wallet, the chain, the proving
backend, the random bytes, the clock and the file reader. A built Poseidon
instance is an arbitrary function `Hasher` from inputs to a natural number. A
proving backend is a function from the witness to a proof or an error.

## Model

| member | source | states |
|---|---|---|
| Poseidon.HexByte | frontend/src/utils/poseidon.js:37 | `b.toString(16).padStart(2, "0")` is always two hex digits whose value is the byte |
| Poseidon.HexByteDigits | frontend/src/utils/poseidon.js:37 | padding the hex form of a byte below 16 supplies the leading zero, so the result is its high digit followed by its low digit |
| Poseidon.HexString | frontend/src/utils/poseidon.js:37 | `map` and `join("")` of the padded hex bytes: two radix-16 digits per byte. `HexStringValue` proves the string's value is the big-endian value of the bytes |
| Poseidon.HexStringValue | frontend/src/utils/poseidon.js:37 | the joined hex string reads back, in radix 16, as the big-endian value of the bytes |
| Poseidon.HexStringLength | frontend/src/utils/poseidon.js:35-37 | 31 bytes give a 62-digit hex string |
| Poseidon.BigEndianBound | frontend/src/utils/poseidon.js:35 | k bytes hold a value below 256^k |
| Poseidon.BigEndianInjective | frontend/src/utils/poseidon.js:37 | equal-length byte strings with one value are equal |
| Poseidon.Pow256Of31 | frontend/src/utils/poseidon.js:35 | 256^31 is 2^248 |
| Poseidon.HexLiteralParses | frontend/src/utils/poseidon.js:37 | `BigInt("0x" + hex)` succeeds and yields the big-endian value of the bytes |
| Poseidon.RandomFieldElementValue | frontend/src/utils/poseidon.js:34-38 | `randomFieldElement()` is the big-endian value of the 31 sampled bytes |
| Poseidon.RandomFieldElementBound | frontend/src/utils/poseidon.js:31-38 | the sampled value is below 2^248 and so below the BN254 field order, as the comment at line 35 promises |
| Poseidon.RandomFieldElementInjective | frontend/src/utils/poseidon.js:34-38 | different byte samples give different field elements |
| Poseidon.PoseidonCache.constructor | frontend/src/utils/poseidon.js:12 | the cache starts empty, with no instance built |
| Poseidon.PoseidonCache.GetPoseidon | frontend/src/utils/poseidon.js:14-17 | with an instance cached, the call returns it and builds nothing. Without one it tries a build: a successful build is cached and returned, and a rejected build is returned as the failure and leaves the cache empty, so the next call tries again. At most one instance is ever built |
| Poseidon.PoseidonCache.Hash | frontend/src/utils/poseidon.js:23-28 | `poseidon(inputs)` is the instance `getPoseidon` resolves applied to the inputs, or the build's rejection when there is none. The cache ends as `getPoseidon` leaves it: a cached instance means no build and no attempt, and an empty cache means one attempt and one build only if it succeeded |
| Poseidon.ResolveSticks | frontend/src/utils/poseidon.js:14-17 | once a call has resolved an instance, it stays cached, and every later call resolves the same instance whatever a new build would give |
| Poseidon.RejectedBuildRetries | frontend/src/utils/poseidon.js:14-17 | a rejected build caches nothing, so the next call resolves to whatever its own build gives |
| Poseidon.RandomFieldElement | frontend/src/utils/poseidon.js:34-38 | computes the value of the hex literal of the 31 sampled bytes. Its meaning is proved by `RandomFieldElementValue` and its bound by `RandomFieldElementBound` |
| ZKVote.SwapPairIsEip197 | frontend/src/hooks/useZKVote.js:45-48 | reversing a `pi_b` pair re-encodes the extension-field element from snarkjs' real-first order into the imaginary-first order of EIP-197 |
| ZKVote.SwapPairTwice | frontend/src/hooks/useZKVote.js:46-47 | swapping a pair twice gives back the two coordinates |
| ZKVote.SwapPair | frontend/src/hooks/useZKVote.js:46-47 | reverses one `pi_b` pair. `SwapPairIsEip197` proves it yields the EIP-197 order and `SwapPairTwice` that it undoes itself |
| ZKVote.VoteFlag | frontend/src/hooks/useZKVote.js:34 | the vote signal is "1" exactly for yes and "0" exactly for no |
| ZKVote.BuildWitness | frontend/src/hooks/useZKVote.js:27-39 | computes the witness from the inputs and the two Poseidon hashes. `WitnessReadsBack` proves that every number in it reads back as the value hashed or published |
| ZKVote.WitnessReadsBack | frontend/src/hooks/useZKVote.js:27-39 | every number in the witness is a decimal string that `BigInt` reads back as the value hashed or published. This holds for negative inputs too |
| ZKVote.FormatProof | frontend/src/hooks/useZKVote.js:44-53 | `pA` and `pC` are the first two coordinates of `pi_a` and `pi_c`. Each `pB` pair is the EIP-197 encoding of the corresponding `pi_b` element. The public signals, commitment and nullifier hash are passed through unchanged |
| ZKVote.ProofFor | frontend/src/hooks/useZKVote.js:24-57 | computes what `generateProof` resolves or rejects with. `ProofForSpec` proves when it succeeds and what the proof carries |
| ZKVote.ProofForSpec | frontend/src/hooks/useZKVote.js:24-57 | `generateProof` yields a proof exactly when the hasher and the backend both succeed. The proof carries the backend's public signals, and its commitment and nullifier hash are Poseidon(secret, nullifier) and Poseidon(nullifier, proposalId), as written into the witness |
| ZKVote.NullifierHashRepeatable | frontend/src/hooks/useZKVote.js:28 | the nullifier hash depends only on nullifier and proposal, so a second attempt on the same proposal yields the same nullifier hash whatever the secret or choice |
| ZKVote.ZKVoteHook.constructor | frontend/src/hooks/useZKVote.js:22 | `generating` starts false |
| ZKVote.ZKVoteHook.GenerateProof | frontend/src/hooks/useZKVote.js:24-57 | the hashes go through the shared Poseidon cache, and the result is the one `ProofFor` specifies for the instance the cache resolves. `generating` was up when the backend was called, and is down afterwards on success and on failure alike. A rejected build reaches no backend call Both hashes together make at most one build attempt, and only when the cache was empty |
| Voting.ReasonOf | frontend/src/hooks/useVoting.js:165 | the reason is the first present field among `reason`, `data.message` and `message`, else "Unknown error" |
| Voting.Translate | frontend/src/hooks/useVoting.js:166-171 | computes the `includes` chain. `TranslateIsFirstMatch` proves it is a first-match lookup |
| Voting.ParseError | frontend/src/hooks/useVoting.js:164-172 | computes `parseError`. `ParseErrorSpec` and `ParseErrorPassesThrough` prove what it returns |
| Voting.ReasonOrMessage | frontend/src/hooks/useVoting.js:79 | `err.reason ?? err.message` as concatenation prints it: the reason if present, else the message string, "null" for a `null` message and "undefined" for a missing one. It is the text of the toast that `VotingHook.LoadProposals` adds on a failed fetch |
| Voting.ReasonOrMessageAgrees | frontend/src/hooks/useVoting.js:79 | for an error without `data.message`, the reload's failure text equals `parseError`'s reason exactly when the error has a reason or a string message |
| Voting.TranslateIsFirstMatch | frontend/src/hooks/useVoting.js:166-171 | the chain of `includes` tests is a first-match lookup in a table of five needles and messages |
| Voting.FirstMatchPicks | frontend/src/hooks/useVoting.js:166-170 | an entry wins exactly when its needle occurs and no earlier needle does |
| Voting.FirstMatchFallsThrough | frontend/src/hooks/useVoting.js:171 | a reason with no needle in it falls through unchanged |
| Voting.ParseErrorSpec | frontend/src/hooks/useVoting.js:164-172 | `parseError` returns the message of the first matching needle |
| Voting.ParseErrorPassesThrough | frontend/src/hooks/useVoting.js:164-172 | `parseError` returns the raw reason when no needle matches |
| Voting.AlreadyVotedWinsOverNotCreator | frontend/src/hooks/useVoting.js:166-168 | a reason that names both a double vote and a non-creator reports the double vote |
| Voting.Normalize | frontend/src/hooks/useVoting.js:67-77 | the stored list has the fetched proposals in reverse order, newest first |
| Voting.NormalizeTwice | frontend/src/hooks/useVoting.js:77 | reversing twice restores the chain's order |
| Voting.RemoveToasts | frontend/src/hooks/useVoting.js:30 | computes the expiry filter. `RemoveToastsSpec` proves which toasts it keeps |
| Voting.RemoveToastsSpec | frontend/src/hooks/useVoting.js:30 | the expiry filter keeps exactly the toasts whose id differs |
| Voting.RemoveToastsAppend | frontend/src/hooks/useVoting.js:30 | the filter keeps the remaining toasts in order, because it distributes over concatenation |
| Voting.RemoveAbsentId | frontend/src/hooks/useVoting.js:30 | expiring an id that no toast carries changes nothing |
| Voting.AddThenExpire | frontend/src/hooks/useVoting.js:27-31 | adding a toast and expiring its id equals removing that id from the earlier list. Any earlier toast stamped in the same millisecond goes too |
| Voting.WriteActionToastsSpec | frontend/src/hooks/useVoting.js:84-144 | a write adds one to three toasts. Each toast carries the clock reading of its own `addToast` call, in call order. A success toast appears exactly after a confirmed transaction. A failure ends with the `parseError` message. A refused write adds only "Connect your wallet first." |
| Voting.FirstExpiryKeepsSecond | frontend/src/hooks/useVoting.js:27-31 | the timer of a write's "sent" toast also removes the toast that follows it exactly when both were added in the same millisecond |
| Voting.VotingHook.constructor | frontend/src/hooks/useVoting.js:18-24 | the hook starts with no proposals, no toasts, `loading` down and nothing sent |
| Voting.VotingHook.AddToast | frontend/src/hooks/useVoting.js:27-29 | one toast stamped with the clock reading is appended |
| Voting.VotingHook.ExpireToast | frontend/src/hooks/useVoting.js:30 | the timer callback removes every toast with that id |
| Voting.VotingHook.LoadProposals | frontend/src/hooks/useVoting.js:61-81 | without a provider or contract address nothing changes. A successful fetch replaces the list with the normalised, reversed proposals. A failed fetch keeps the list and adds one error toast with `reason ?? message` |
| Voting.VotingHook.Write | frontend/src/hooks/useVoting.js:84-144 | a write is sent exactly when a signer and an address exist. It is sent with `loading` up and leaves `loading` down. Refused writes leave `loading` alone. Each `addToast` call takes its own clock reading. The toasts and proposal list end as `WriteActionToasts` and `WriteActionProposals` describe, and every write sent so far was sent with `loading` up |
| Voting.VotingHook.CreateProposal | frontend/src/hooks/useVoting.js:84-102 | `Write` with the create call and its two messages |
| Voting.VotingHook.CastVote | frontend/src/hooks/useVoting.js:105-123 | `Write` with the vote call and "Voted YES ✅/NO ❌ successfully!" |
| Voting.VotedMsg | frontend/src/hooks/useVoting.js:116 | "Voted YES ✅ successfully!" for yes and "Voted NO ❌ successfully!" for no. `VotingHook.CastVote` adds it as the success toast of a confirmed vote |
| Voting.VotingHook.CloseProposal | frontend/src/hooks/useVoting.js:126-144 | `Write` with the close call and its two messages |
| Register.RegisterModal.constructor | frontend/src/components/RegisterModal.jsx:12-16 | empty credential, nothing computing, nothing saved or downloaded |
| Register.RegisterModal.GenerateEnabled | frontend/src/components/RegisterModal.jsx:59 | the Generate button is enabled exactly when nothing is computing or loading |
| Register.RegisterModal.RegisterEnabled | frontend/src/components/RegisterModal.jsx:81 | the Register button is usable exactly when a commitment exists, it was saved and nothing is loading. `ClickRegister` proves what an enabled click registers |
| Register.RegisterModal.HandleGenerate | frontend/src/components/RegisterModal.jsx:18-31 | the commitment is hashed through the shared Poseidon cache. When the cache resolves an instance, the secret and nullifier are the sampled field elements and the commitment is their hash under that instance, all stored as decimal strings, and `saved` is cleared. A rejected build leaves the credential as it was. `computing` ends down either way, and the credential invariant holds One click makes at most one build attempt, and only when the cache was empty |
| Register.RegisterModal.Store | frontend/src/components/RegisterModal.jsx:24-27 | the three strings are the decimal forms of the two elements and their commitment, and `saved` is cleared |
| Register.RegisterModal.HandleSave | frontend/src/components/RegisterModal.jsx:33-43 | the downloaded file holds exactly the three strings shown, and `saved` goes up |
| Register.RegisterModal.HandleSubmit | frontend/src/components/RegisterModal.jsx:45-48 | without a commitment nothing is registered. Otherwise `BigInt` of the stored string is exactly the computed commitment |
| Register.RegisterModal.ClickRegister | frontend/src/components/RegisterModal.jsx:63-85 | the enabled Register button registers something, and a disabled one nothing. What is registered is the commitment of the credential file last downloaded |
| Vote.SubmitOutcomeSpec | frontend/src/components/VoteModal.jsx:34-49 | `handleSubmit` does nothing exactly when the guard fails. It submits only after both `BigInt` parses and the proof succeed, with the proof's calldata, and only once `onVote` resolved |
| Vote.OnVoteCallsSpec | frontend/src/components/VoteModal.jsx:34-49 | `onVote` is called at most once per click, and only after both numbers parse. A submission is exactly a resolved call, with the submitted calldata. A call that rejects ends in the alert with the rejection's message |
| Vote.Accepts | frontend/src/components/VoteModal.jsx:23 | a parsed file is accepted exactly when its secret and nullifier are both truthy. `RegisteredCredentialVotes` proves that every registration file passes |
| Vote.SubmitOutcome | frontend/src/components/VoteModal.jsx:34-49 | computes what a click amounts to. `SubmitOutcomeSpec` proves when it submits, alerts or does nothing |
| Vote.Parse | frontend/src/components/VoteModal.jsx:35-39 | the guard, then `BigInt(secret)`, then `BigInt(nullifier)`. `ParseSpec` proves what each result means |
| Vote.ParseSpec | frontend/src/components/VoteModal.jsx:35-39 | the prover is reached exactly when the guard passes and both strings read as BigInts, with those values. A click is ignored exactly when the guard fails. A failed read reports the first string that fails |
| Vote.SubmitEnabledIff | frontend/src/components/VoteModal.jsx:35-113 | the submit button is enabled exactly when nothing is busy and a click would pass the guard |
| Vote.RegisteredCredentialVotes | frontend/src/components/VoteModal.jsx:16-43 | a file downloaded from the registration dialog is accepted, its strings parse back to the registered secret and nullifier, and any proof from them carries the registered commitment |
| Vote.VoteModal.constructor | frontend/src/components/VoteModal.jsx:10-14 | no choice, empty fields, no error, a fresh proof hook that is not generating |
| Vote.VoteModal.Choose | frontend/src/components/VoteModal.jsx:64-72 | the YES and NO buttons set the choice |
| Vote.VoteModal.EditSecret | frontend/src/components/VoteModal.jsx:91 | typing sets the secret |
| Vote.VoteModal.EditNullifier | frontend/src/components/VoteModal.jsx:100 | typing sets the nullifier |
| Vote.VoteModal.Busy | frontend/src/components/VoteModal.jsx:51 | the dialog is busy exactly while the proof is generating or a transaction is loading |
| Vote.VoteModal.SubmitEnabled | frontend/src/components/VoteModal.jsx:113 | the submit button is enabled exactly when nothing is busy and the guard passes. `SubmitEnabledIff` proves that an enabled click is not ignored |
| Vote.VoteModal.HandleFileUpload | frontend/src/components/VoteModal.jsx:16-32 | no file changes nothing. A file with a truthy secret and nullifier replaces both and clears the error. Any other file only sets "Invalid credentials file." |
| Vote.VoteModal.HandleSubmit | frontend/src/components/VoteModal.jsx:34-49 | the result is the one `SubmitOutcome` specifies, and `onVote` receives exactly the calls `OnVoteCalls` lists, for every result. The dialog closes exactly on a submission. Once both numbers parse, the proof goes through the shared Poseidon cache, `generating` was up when the backend was called and ends down. An ignored click or a failed parse leaves the proof hook, the cache's builds and `onVote` untouched A click makes at most one build attempt, and only when a proof is attempted with an empty cache |
| Vote.VoteModal.ProveAndSubmit | frontend/src/components/VoteModal.jsx:37-48 | after both numbers parse, the proof is generated through the cache and handed to `onVote`, which receives exactly the calls `ProveCalls` lists. `generating` was up when the backend was called and ends down. The dialog closes only when `onVote` resolves, and every failure becomes an alert The proof makes at most one build attempt, and only when the cache was empty |
| Card.AgeOf | frontend/src/components/ProposalCard.jsx:5-11 | under a minute, a future time included, is "just now". Otherwise the unit is the largest of minutes, hours and days that fits, and the count is the number of whole units elapsed (at least one) |
| Card.AgeLabelTail | frontend/src/components/ProposalCard.jsx:7-10 | every label ends in a five-character suffix naming the unit, after the decimal count |
| Card.AgeLabelInjective | frontend/src/components/ProposalCard.jsx:5-11 | different ages give different labels |
| Card.TimeAgo | frontend/src/components/ProposalCard.jsx:5-11 | computes the label of the age. `AgeOf`, `AgeLabelTail` and `AgeLabelInjective` prove which unit is chosen and that labels differ for different ages |
| Card.Elapsed | frontend/src/components/ProposalCard.jsx:6 | whole seconds since the timestamp, negative for a future one. `AgeOf` proves how it is bucketed |
| Card.ShortAddrLong | frontend/src/components/ProposalCard.jsx:13-15 | an address of ten or more characters becomes its first six, an ellipsis and its last four |
| Card.ShortAddr | frontend/src/components/ProposalCard.jsx:13-15 | computes the shortened address. `ShortAddrLong` proves its shape and `Wallet.ShortAddrAgrees` that the wallet badge agrees with it |
| Card.Total | frontend/src/components/ProposalCard.jsx:26 | the sum of yes and no votes. `YesPctSpec` proves the percentage is taken of it, and 0 when it is 0 |
| Card.YesPct | frontend/src/components/ProposalCard.jsx:26-27 | computes the rounded yes-percentage. `YesPctSpec` proves its bounds and rounding |
| Card.YesPctSpec | frontend/src/components/ProposalCard.jsx:26-27 | the percentage is 0 without votes. Otherwise it is at most 100 and the nearest whole percentage, with halves rounding up as `Math.round` does |
| Card.IsCreatorIff | frontend/src/components/ProposalCard.jsx:43 | the viewer is the creator exactly when an account is present and equals the creator up to ASCII case |
| Card.IsCreator | frontend/src/components/ProposalCard.jsx:43 | compares the lower-cased account and creator. `IsCreatorIff` proves it is a case-insensitive equality |
| Card.ShowActions | frontend/src/components/ProposalCard.jsx:79 | the actions row shows exactly for an open proposal and a truthy account |
| Card.ShowVoteButtons | frontend/src/components/ProposalCard.jsx:79-100 | the vote buttons show exactly in the actions row of an account that has not voted |
| Card.ShowClose | frontend/src/components/ProposalCard.jsx:101-110 | the Close button shows exactly in the actions row of the creator. `ShowCloseMeans` proves what that requires |
| Card.NoActionsWhenClosedOrAnonymous | frontend/src/components/ProposalCard.jsx:79-112 | a closed proposal, or a viewer without an account, gets no vote or close button |
| Card.ShowCloseMeans | frontend/src/components/ProposalCard.jsx:79-110 | the Close button shows exactly for a connected creator, up to case, on an open proposal |
| Card.VoteCountLabelSpec | frontend/src/components/ProposalCard.jsx:67 | "1 vote" for one vote; otherwise the count followed by " votes" |
| Card.VoteCountLabel | frontend/src/components/ProposalCard.jsx:67 | computes the vote-count label. `VoteCountLabelSpec` proves its form |
| Create.CreateProposalForm.constructor | frontend/src/components/CreateProposal.jsx:4-5 | the form starts empty |
| Create.CreateProposalForm.EditTitle | frontend/src/components/CreateProposal.jsx:26 | typing sets the title |
| Create.CreateProposalForm.EditDescription | frontend/src/components/CreateProposal.jsx:38 | typing sets the description |
| Create.CreateProposalForm.HandleSubmit | frontend/src/components/CreateProposal.jsx:7-13 | a blank title submits nothing and keeps the form. Otherwise `onSubmit` gets both fields trimmed and the form is cleared |
| Create.SubmittedArgs | frontend/src/components/CreateProposal.jsx:9-10 | the submitted title is non-empty. Neither submitted field starts or ends with whitespace, and each is a contiguous run of what was typed |
| Create.CreateProposalForm.SubmitEnabledIff | frontend/src/components/CreateProposal.jsx:44 | `SubmitEnabled` holds exactly when nothing is loading, the form is enabled, and the title has a non-whitespace character, which is when a click submits |
| Create.CreateProposalForm.SubmitEnabled | frontend/src/components/CreateProposal.jsx:44 | the button's `disabled` condition negated. `SubmitEnabledIff` proves what it means |
| Wallet.ShortAddrEmpty | frontend/src/components/ConnectWallet.jsx:3-6 | the result is empty exactly for a missing or empty address |
| Wallet.ShortAddrAgrees | frontend/src/components/ConnectWallet.jsx:3-6 | on a non-empty address it agrees with the card's `shortAddr` |
| Wallet.ShortAddrLong | frontend/src/components/ConnectWallet.jsx:5 | an address of ten or more characters becomes head, ellipsis and tail |
| Wallet.ShortAddr | frontend/src/components/ConnectWallet.jsx:3-6 | computes the badge's shortened address. `ShortAddrEmpty`, `ShortAddrAgrees` and `ShortAddrLong` prove its cases |
| Wallet.ViewSpec | frontend/src/components/ConnectWallet.jsx:8-21 | the badge shows exactly for a truthy account and carries its non-empty short form. Otherwise the connect button shows |
| Wallet.View | frontend/src/components/ConnectWallet.jsx:8-21 | computes whether the badge or the connect button shows. `ViewSpec` proves when each does |
| Js.ContainsIff | frontend/src/hooks/useVoting.js:166-170 | `includes` holds exactly when the needle occurs at some index |
| Js.Contains | frontend/src/hooks/useVoting.js:166-170 | `includes`, stated as an occurrence at some index. `ContainsIff` proves it searches every position |
| Js.TrimIsInfix | frontend/src/components/CreateProposal.jsx:9-10 | `trim` yields a contiguous run of the input whose ends are not whitespace |
| Js.TrimEmptyIff | frontend/src/components/CreateProposal.jsx:9 | the trimmed string is empty exactly when the input is all whitespace |
| Js.TrimIdempotent | frontend/src/components/CreateProposal.jsx:10 | trimming twice is trimming once |
| Js.Trim | frontend/src/components/CreateProposal.jsx:9-10 | `trim` as removal of leading and trailing whitespace. `TrimIsInfix`, `TrimEmptyIff` and `TrimIdempotent` prove its properties |
| Js.ToLowerEqIff | frontend/src/components/ProposalCard.jsx:43 | lower-casing both sides and comparing is a character-wise comparison that ignores ASCII case |
| Js.IntDecimalRoundTrip | frontend/src/hooks/useZKVote.js:32-38 | `BigInt(x.toString())` is `x` for every integer |
| Js.DecimalParses | frontend/src/components/RegisterModal.jsx:47 | the decimal string of a natural number is non-empty and reads back as that number |
| Js.NatToDecimal | frontend/src/components/RegisterModal.jsx:24-26 | `toString()` of a natural number. `DecimalParses` and `IntDecimalRoundTrip` prove that `BigInt` reads it back |
| Js.BigIntOf | frontend/src/components/VoteModal.jsx:38-39 | `BigInt(string)`: the trimmed text as a signed decimal or a 0x, 0o or 0b literal, a blank string as 0, and no value for anything else. `DecimalParses`, `IntDecimalRoundTrip` and `HexLiteralParses` prove what it reads |
| Js.IntToDecimal | frontend/src/hooks/useZKVote.js:32-38 | BigInt `toString()`: a minus sign before the digits of a negative value, otherwise the digits alone. `IntDecimalRoundTrip` proves `BigInt` reads it back |
| Js.SliceFirst | frontend/src/components/ProposalCard.jsx:14 | `slice(0, n)`: a prefix of length n, or the whole of a shorter string |
| Js.SliceLast | frontend/src/components/ProposalCard.jsx:14 | `slice(-n)`: a suffix of length n, or the whole of a shorter string |
| Js.ToLower | frontend/src/components/ProposalCard.jsx:43 | `toLowerCase` on ASCII letters only, character by character. `ToLowerEqIff` proves that comparing two lower-cased strings is a comparison ignoring ASCII case |

## Left out

- The Poseidon permutation (circomlibjs `buildPoseidon`, `F.toObject`) is not modelled. A built instance is an arbitrary function, and every property here holds for any such function.
- Groth16 proving (`groth16.fullProve` with the wasm and zkey assets) is a function parameter. Its output shape, three coordinates and a third `pi_b` pair, is only required to have at least two of each.
- `crypto.getRandomValues` is replaced by the 31 bytes it produces, passed in as a parameter.
- `Date.now()` is a parameter wherever it is read. Each `addToast` call of a write takes its own reading, so the readings may differ across the awaits between them.
- Wallet and chain I/O is out of scope. This covers `connect`, `BrowserProvider`, `getSigner`, `getNetwork`, the reload-on-change listeners, `checkHasVoted` and the contract calls. Whether a provider and a signer exist is state, and each transaction and fetch outcome is a parameter.
- `chainId` and `account` state belong to `connect`, which is not modelled.
- Browser APIs are out of scope: `FileReader` and `JSON.parse`, the Blob download, `alert`, `console.error` and `setTimeout`. The parsed file is a `FileInput`, the download is a ghost log of `CredentialFile`s, and the alert is the returned message. Scheduling and firing the timer are separate calls, `AddToast` and `ExpireToast`.
- The message of `Vote.BigIntError` follows the V8 engine's wording for a failed `BigInt` conversion. Other engines word it differently.
- JSON values that are not strings in a credential file (a number, say) are not modelled. A field is either a string or missing.
- Card.YesPct: computed in exact rational arithmetic with round-half-up. JavaScript's floating-point `yes / total * 100` can land just below a half and round down.
- Card.YesPctSpec: its rounding clause holds of the exact model, not of JavaScript's floating point. For 29 yes and 171 no votes, `Math.round(29 / 200 * 100)` is 14, because the product is 14.499999999999998, while `YesPct` gives 15.
- `Number()` of chain integers in `loadProposals` is taken as exact. Precision loss above 2^53 is not modelled.
- `toLowerCase` is modelled on ASCII letters only. Other letters keep their case.
- Concurrency is not modelled. Two `getPoseidon` calls racing before the first build finishes would each build an instance. A second click while a proof or transaction is pending is not modelled either.
- The `maxLength={120}` limit on the title input is not modelled.
- `connect`, `checkHasVoted` and `App`'s composition are not modelled. `App` passes `registerVoter`, which the hook does not return. `VoteModal` is not rendered by `ProposalList` or `ProposalCard`, whose vote buttons call `castVote(id, support)` directly.
- Rendering, `useEffect` and the vite configuration are not modelled. The markup is reduced to the enabled and visible predicates it depends on.
- `onSubmit` in `CreateProposal` is taken to always resolve, as `createProposal` catches every error. The form is therefore cleared after every submission.
