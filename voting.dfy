/**
 * frontend/src/hooks/useVoting.js: the hook that owns the proposal list, the
 * `loading` flag and the toast list, the guarded write actions, and the
 * translation of contract errors into messages.
 *
 * Wallet and chain I/O are parameters: whether a signer and a provider are
 * connected, the configured contract address, the outcome of each transaction
 * and of each `getAllProposals` call, and the clock reading `Date.now()`.
 */
module Voting {
  import opened Js

  // ---------------------------------------------------------------------------
  // parseError
  // ---------------------------------------------------------------------------

  /**
   * A property of a thrown error that may be printed: a string, `null`, or
   * missing (`undefined`). String concatenation prints the last two as "null"
   * and "undefined"; `??` skips both.
   */
  datatype Field = Str(value: string) | Null | Undefined

  /**
   * The fields of a thrown error that the hook reads. `reason` and
   * `dataMessage` (`err.data?.message`) are only ever passed to `??`, so `None`
   * stands for both `null` and `undefined`; `message` is also printed, and keeps
   * the two apart.
   */
  datatype ErrorInfo = ErrorInfo(reason: Option<string>, dataMessage: Option<string>, message: Field)

  const AlreadyVotedMsg := "You have already voted on this proposal."
  const ProposalClosedMsg := "This proposal is already closed."
  const NotCreatorMsg := "Only the proposal creator can close it."
  const EmptyTitleMsg := "Title cannot be empty."
  const UserRejectedMsg := "Transaction rejected by user."

  /** The substring checks of `parseError`, in the order they are tried, with their messages. */
  const ErrorTable: seq<(string, string)> := [
    ("AlreadyVoted", AlreadyVotedMsg),
    ("ProposalClosed_Err", ProposalClosedMsg),
    ("NotCreator", NotCreatorMsg),
    ("EmptyTitle", EmptyTitleMsg),
    ("user rejected", UserRejectedMsg)
  ]

  /** `err.reason ?? err.data?.message ?? err.message ?? "Unknown error"`. */
  function ReasonOf(err: ErrorInfo): (reason: string)
    ensures err.reason.Some? ==> reason == err.reason.value
    ensures err.reason.None? && err.dataMessage.Some? ==> reason == err.dataMessage.value
    ensures err.reason.None? && err.dataMessage.None? && err.message.Str? ==> reason == err.message.value
    ensures err.reason.None? && err.dataMessage.None? && !err.message.Str? ==> reason == "Unknown error"
  {
    match err.reason
    case Some(r) => r
    case None =>
      match err.dataMessage
      case Some(m) => m
      case None =>
        match err.message
        case Str(m) => m
        case _ => "Unknown error"
  }

  /** The chain of `includes` tests of `parseError`, as written. */
  function Translate(reason: string): string
  {
    if Contains(reason, "AlreadyVoted") then AlreadyVotedMsg
    else if Contains(reason, "ProposalClosed_Err") then ProposalClosedMsg
    else if Contains(reason, "NotCreator") then NotCreatorMsg
    else if Contains(reason, "EmptyTitle") then EmptyTitleMsg
    else if Contains(reason, "user rejected") then UserRejectedMsg
    else reason
  }

  /** `parseError(err)`. */
  function ParseError(err: ErrorInfo): string
  {
    Translate(ReasonOf(err))
  }

  /** Reference definition: the message of the first table entry whose needle occurs, else the reason. */
  function FirstMatch(reason: string, table: seq<(string, string)>): string
  {
    if table == [] then reason
    else if Contains(reason, table[0].0) then table[0].1
    else FirstMatch(reason, table[1..])
  }

  /** The written chain of tests is the first-match lookup in `ErrorTable`. */
  lemma TranslateIsFirstMatch(reason: string)
    ensures Translate(reason) == FirstMatch(reason, ErrorTable)
  {
    var t0 := ErrorTable;
    var t1, t2, t3, t4 := t0[1..], t0[2..], t0[3..], t0[4..];
    assert t1[1..] == t2 && t2[1..] == t3 && t3[1..] == t4 && t4[1..] == [];
    assert FirstMatch(reason, t4) == (if Contains(reason, "user rejected") then UserRejectedMsg else reason);
    assert FirstMatch(reason, t3) == (if Contains(reason, "EmptyTitle") then EmptyTitleMsg else FirstMatch(reason, t4));
    assert FirstMatch(reason, t2) == (if Contains(reason, "NotCreator") then NotCreatorMsg else FirstMatch(reason, t3));
    assert FirstMatch(reason, t1) == (if Contains(reason, "ProposalClosed_Err") then ProposalClosedMsg else FirstMatch(reason, t2));
  }

  /** An entry wins exactly when its needle occurs and no earlier needle does. */
  lemma {:induction false} FirstMatchPicks(reason: string, table: seq<(string, string)>, i: nat)
    requires i < |table| && Contains(reason, table[i].0)
    requires forall j :: 0 <= j < i ==> !Contains(reason, table[j].0)
    ensures FirstMatch(reason, table) == table[i].1
  {
    if i > 0 {
      assert !Contains(reason, table[0].0);
      FirstMatchPicks(reason, table[1..], i - 1);
    }
  }

  /** A reason that contains no needle is returned unchanged. */
  lemma {:induction false} FirstMatchFallsThrough(reason: string, table: seq<(string, string)>)
    requires forall j :: 0 <= j < |table| ==> !Contains(reason, table[j].0)
    ensures FirstMatch(reason, table) == reason
  {
    if table != [] {
      assert !Contains(reason, table[0].0);
      FirstMatchFallsThrough(reason, table[1..]);
    }
  }

  /**
   * `parseError` on a reason: the message of the first entry of `ErrorTable`
   * whose needle the reason contains, or the reason itself when none does.
   */
  lemma ParseErrorSpec(err: ErrorInfo, i: nat)
    requires i < |ErrorTable| && Contains(ReasonOf(err), ErrorTable[i].0)
    requires forall j :: 0 <= j < i ==> !Contains(ReasonOf(err), ErrorTable[j].0)
    ensures ParseError(err) == ErrorTable[i].1
  {
    TranslateIsFirstMatch(ReasonOf(err));
    FirstMatchPicks(ReasonOf(err), ErrorTable, i);
  }

  lemma ParseErrorPassesThrough(err: ErrorInfo)
    requires forall j :: 0 <= j < |ErrorTable| ==> !Contains(ReasonOf(err), ErrorTable[j].0)
    ensures ParseError(err) == ReasonOf(err)
  {
    TranslateIsFirstMatch(ReasonOf(err));
    FirstMatchFallsThrough(ReasonOf(err), ErrorTable);
  }

  /** A reason naming both a double vote and a non-creator reports the double vote: it is tested first. */
  lemma AlreadyVotedWinsOverNotCreator(prefix: string, middle: string, suffix: string)
    ensures Translate(prefix + "AlreadyVoted" + middle + "NotCreator" + suffix) == AlreadyVotedMsg
  {
    ContainsInfix(prefix, "AlreadyVoted", middle + "NotCreator" + suffix);
    assert prefix + "AlreadyVoted" + middle + "NotCreator" + suffix
        == prefix + "AlreadyVoted" + (middle + "NotCreator" + suffix);
  }

  // ---------------------------------------------------------------------------
  // Proposals
  // ---------------------------------------------------------------------------

  /** A proposal as `getAllProposals` returns it and as it is kept in state. */
  datatype Proposal = Proposal(
    id: nat, title: string, description: string, creator: string,
    yesVotes: nat, noVotes: nat, active: bool, createdAt: nat)

  /** `raw.map(normalise).reverse()` of `loadProposals`: newest first. */
  function Normalize(raw: seq<Proposal>): (r: seq<Proposal>)
    ensures |r| == |raw|
    ensures forall i :: 0 <= i < |raw| ==> r[i] == raw[|raw| - 1 - i]
  {
    if raw == [] then [] else Normalize(raw[1..]) + [raw[0]]
  }

  /** Normalising twice gives back the chain's order. */
  lemma NormalizeTwice(raw: seq<Proposal>)
    ensures Normalize(Normalize(raw)) == raw
  {
  }

  // ---------------------------------------------------------------------------
  // Toasts
  // ---------------------------------------------------------------------------

  datatype ToastKind = Info | Success | Error

  /** A toast; its id is the `Date.now()` reading taken when it was added. */
  datatype Toast = Toast(id: nat, msg: string, kind: ToastKind)

  /** `prev.filter((t) => t.id !== id)`. */
  function RemoveToasts(toasts: seq<Toast>, id: nat): seq<Toast>
  {
    if toasts == [] then []
    else if toasts[0].id != id then [toasts[0]] + RemoveToasts(toasts[1..], id)
    else RemoveToasts(toasts[1..], id)
  }

  /** The toasts that remain are exactly the ones whose id differs. */
  lemma {:induction false} RemoveToastsSpec(toasts: seq<Toast>, id: nat)
    ensures |RemoveToasts(toasts, id)| <= |toasts|
    ensures forall t :: t in RemoveToasts(toasts, id) <==> t in toasts && t.id != id
  {
    if toasts != [] {
      RemoveToastsSpec(toasts[1..], id);
      assert forall t :: t in toasts <==> t == toasts[0] || t in toasts[1..];
    }
  }

  /** Removal keeps the other toasts in their order: it distributes over concatenation. */
  lemma {:induction false} RemoveToastsAppend(a: seq<Toast>, b: seq<Toast>, id: nat)
    ensures RemoveToasts(a + b, id) == RemoveToasts(a, id) + RemoveToasts(b, id)
  {
    if a == [] {
      assert a + b == b;
    } else {
      var rest := RemoveToasts(a[1..] + b, id);
      RemoveToastsAppend(a[1..], b, id);
      assert (a + b)[0] == a[0] && (a + b)[1..] == a[1..] + b;
      if a[0].id != id {
        assert RemoveToasts(a + b, id) == [a[0]] + rest;
        assert [a[0]] + (RemoveToasts(a[1..], id) + RemoveToasts(b, id))
            == ([a[0]] + RemoveToasts(a[1..], id)) + RemoveToasts(b, id);
      }
    }
  }

  /** Removing an id that no toast carries changes nothing. */
  lemma {:induction false} RemoveAbsentId(toasts: seq<Toast>, id: nat)
    requires forall i :: 0 <= i < |toasts| ==> toasts[i].id != id
    ensures RemoveToasts(toasts, id) == toasts
  {
    if toasts != [] {
      RemoveAbsentId(toasts[1..], id);
    }
  }

  /**
   * Adding a toast and later expiring its id leaves what removing that id from
   * the earlier list leaves: the new toast goes, and with it any earlier toast
   * stamped in the same millisecond.
   */
  lemma AddThenExpire(toasts: seq<Toast>, t: Toast)
    ensures RemoveToasts(toasts + [t], t.id) == RemoveToasts(toasts, t.id)
  {
    RemoveToastsAppend(toasts, [t], t.id);
    assert RemoveToasts([t], t.id) == [];
  }

  // ---------------------------------------------------------------------------
  // The hook's state and its actions
  // ---------------------------------------------------------------------------

  /** The contract writes the client makes. */
  datatype ContractCall =
    | CreateProposalCall(title: string, description: string)
    | VoteCall(proposalId: nat, support: bool)
    | CloseProposalCall(proposalId: nat)

  /** How a write transaction ends: rejected when sent, reverted while waited for, or confirmed. */
  datatype TxOutcome = SendFailed(err: ErrorInfo) | WaitFailed(err: ErrorInfo) | Confirmed

  /** How `getAllProposals` ends. */
  datatype FetchOutcome = Fetched(raw: seq<Proposal>) | FetchFailed(err: ErrorInfo)

  /** A contract write, and the value of `loading` when it was sent. */
  datatype WriteRecord = WriteRecord(call: ContractCall, loadingAtSend: bool)

  /**
   * `err.reason ?? err.message` as string concatenation prints it: a `null`
   * message prints as "null" and a missing one as "undefined".
   */
  function ReasonOrMessage(err: ErrorInfo): (text: string)
    ensures err.reason.Some? ==> text == err.reason.value
    ensures err.reason.None? && err.message.Str? ==> text == err.message.value
    ensures err.reason.None? && err.message.Null? ==> text == "null"
    ensures err.reason.None? && err.message.Undefined? ==> text == "undefined"
  {
    match err.reason
    case Some(r) => r
    case None =>
      match err.message
      case Str(m) => m
      case Null => "null"
      case Undefined => "undefined"
  }

  /**
   * The reload's failure text and `parseError`'s reason agree whenever the error
   * has no `data.message` and has a reason or a string message; they differ
   * only in the fallback for an error without either.
   */
  lemma ReasonOrMessageAgrees(err: ErrorInfo)
    requires err.dataMessage.None?
    ensures err.reason.Some? || err.message.Str? <==> ReasonOrMessage(err) == ReasonOf(err)
  {
  }

  /** The toasts a `loadProposals` call with a provider adds. */
  function LoadToasts(now: nat, fetched: FetchOutcome): seq<Toast>
  {
    match fetched
    case Fetched(_) => []
    case FetchFailed(err) => [Toast(now, "Failed to load proposals: " + ReasonOrMessage(err), Error)]
  }

  /** The proposal list after a `loadProposals` call with a provider. */
  function LoadedProposals(before: seq<Proposal>, fetched: FetchOutcome): seq<Proposal>
  {
    match fetched
    case Fetched(raw) => Normalize(raw)
    case FetchFailed(_) => before
  }

  /**
   * The `Date.now()` readings one write action takes, one per `addToast` call in
   * the order the calls happen: the first toast, the toast after `tx.wait()`, and
   * the toast after the reload's `getAllProposals()`. Awaits separate the calls,
   * so the readings may differ.
   */
  datatype Readings = Readings(first: nat, second: nat, third: nat)

  /** The reading taken by the `i`-th `addToast` call of a write action. */
  function ReadingAt(clock: Readings, i: nat): nat
  {
    if i == 0 then clock.first else if i == 1 then clock.second else clock.third
  }

  /** The toasts a write action adds once it has passed the signer guard. */
  function WriteToasts(clock: Readings, sentMsg: string, doneMsg: string, outcome: TxOutcome): seq<Toast>
  {
    match outcome
    case SendFailed(err) => [Toast(clock.first, ParseError(err), Error)]
    case WaitFailed(err) => [Toast(clock.first, sentMsg, Info), Toast(clock.second, ParseError(err), Error)]
    case Confirmed => [Toast(clock.first, sentMsg, Info), Toast(clock.second, doneMsg, Success)]
  }

  const ConnectFirstMsg := "Connect your wallet first."

  /** The state of one `useVoting()` hook. */
  class VotingHook {
    /** A provider, a signer: set by `connect`, which is not modelled. */
    var hasProvider: bool
    var hasSigner: bool
    /** `CONTRACT_ADDRESS`, "" when the environment sets none. */
    const contractAddress: string
    var proposals: seq<Proposal>
    var loading: bool
    var toasts: seq<Toast>
    /** Every contract write sent, oldest first. */
    ghost var writes: seq<WriteRecord>

    /** Every write was sent while `loading` was up. */
    ghost predicate Valid()
      reads this
    {
      forall i :: 0 <= i < |writes| ==> writes[i].loadingAtSend
    }

    constructor (contractAddress: string, hasProvider: bool, hasSigner: bool)
      ensures Valid()
      ensures this.contractAddress == contractAddress
      ensures this.hasProvider == hasProvider && this.hasSigner == hasSigner
      ensures proposals == [] && !loading && toasts == [] && writes == []
    {
      this.contractAddress := contractAddress;
      this.hasProvider := hasProvider;
      this.hasSigner := hasSigner;
      proposals := [];
      loading := false;
      toasts := [];
      writes := [];
    }

    /** `addToast(msg, type)`: one toast, stamped `now`, at the end. */
    method AddToast(now: nat, msg: string, kind: ToastKind)
      modifies this`toasts
      ensures toasts == old(toasts) + [Toast(now, msg, kind)]
    {
      toasts := toasts + [Toast(now, msg, kind)];
    }

    /** The `setTimeout` callback that `addToast` schedules for the toast stamped `id`. */
    method ExpireToast(id: nat)
      modifies this`toasts
      ensures toasts == RemoveToasts(old(toasts), id)
    {
      toasts := RemoveToasts(toasts, id);
    }

    /** `loadProposals()`: without a provider or an address it does nothing. */
    method LoadProposals(now: nat, fetched: FetchOutcome)
      modifies this`proposals, this`toasts
      ensures !hasProvider || contractAddress == "" ==> proposals == old(proposals) && toasts == old(toasts)
      ensures hasProvider && contractAddress != "" ==>
        proposals == LoadedProposals(old(proposals), fetched) && toasts == old(toasts) + LoadToasts(now, fetched)
    {
      if !hasProvider || contractAddress == "" {
        return;
      }
      match fetched {
        case Fetched(raw) =>
          proposals := Normalize(raw);
        case FetchFailed(err) =>
          AddToast(now, "Failed to load proposals: " + ReasonOrMessage(err), Error);
      }
    }

    /**
     * The shape shared by `createProposal`, `castVote` and `closeProposal`: refuse
     * without a signer or address, leaving `loading` alone; otherwise raise
     * `loading`, send, wait, reload on success, report a failure through
     * `parseError`, and lower `loading` in every case.
     */
    method Write(call: ContractCall, sentMsg: string, doneMsg: string,
                 clock: Readings, outcome: TxOutcome, refreshed: FetchOutcome) returns (sent: bool)
      requires Valid()
      modifies this`loading, this`toasts, this`proposals, this`writes
      ensures Valid()
      ensures sent <==> hasSigner && contractAddress != ""
      ensures loading == (if sent then false else old(loading))
      ensures writes == old(writes) + (if sent then [WriteRecord(call, true)] else [])
      ensures toasts == old(toasts) + WriteActionToasts(sent, clock, sentMsg, doneMsg, outcome, hasProvider, refreshed)
      ensures proposals == WriteActionProposals(sent, old(proposals), outcome, hasProvider, refreshed)
    {
      if !hasSigner || contractAddress == "" {
        AddToast(clock.first, ConnectFirstMsg, Error);
        return false;
      }
      sent := true;
      loading := true;
      writes := writes + [WriteRecord(call, loading)];
      match outcome {
        case SendFailed(err) =>
          AddToast(clock.first, ParseError(err), Error);
        case WaitFailed(err) =>
          AddToast(clock.first, sentMsg, Info);
          AddToast(clock.second, ParseError(err), Error);
        case Confirmed =>
          AddToast(clock.first, sentMsg, Info);
          AddToast(clock.second, doneMsg, Success);
          LoadProposals(clock.third, refreshed);
      }
      loading := false;
    }

    /** `createProposal(title, description)`. */
    method CreateProposal(title: string, description: string, clock: Readings, outcome: TxOutcome, refreshed: FetchOutcome)
      returns (sent: bool)
      requires Valid()
      modifies this`loading, this`toasts, this`proposals, this`writes
      ensures Valid()
      ensures sent <==> hasSigner && contractAddress != ""
      ensures loading == (if sent then false else old(loading))
      ensures writes == old(writes) + (if sent then [WriteRecord(CreateProposalCall(title, description), true)] else [])
      ensures toasts == old(toasts) + WriteActionToasts(sent, clock, CreateSentMsg, "Proposal created!", outcome, hasProvider, refreshed)
      ensures proposals == WriteActionProposals(sent, old(proposals), outcome, hasProvider, refreshed)
    {
      sent := Write(CreateProposalCall(title, description), CreateSentMsg, "Proposal created!", clock, outcome, refreshed);
    }

    /** `castVote(proposalId, support)`. */
    method CastVote(proposalId: nat, support: bool, clock: Readings, outcome: TxOutcome, refreshed: FetchOutcome)
      returns (sent: bool)
      requires Valid()
      modifies this`loading, this`toasts, this`proposals, this`writes
      ensures Valid()
      ensures sent <==> hasSigner && contractAddress != ""
      ensures loading == (if sent then false else old(loading))
      ensures writes == old(writes) + (if sent then [WriteRecord(VoteCall(proposalId, support), true)] else [])
      ensures toasts == old(toasts) + WriteActionToasts(sent, clock, VoteSentMsg, VotedMsg(support), outcome, hasProvider, refreshed)
      ensures proposals == WriteActionProposals(sent, old(proposals), outcome, hasProvider, refreshed)
    {
      sent := Write(VoteCall(proposalId, support), VoteSentMsg, VotedMsg(support), clock, outcome, refreshed);
    }

    /** `closeProposal(proposalId)`. */
    method CloseProposal(proposalId: nat, clock: Readings, outcome: TxOutcome, refreshed: FetchOutcome)
      returns (sent: bool)
      requires Valid()
      modifies this`loading, this`toasts, this`proposals, this`writes
      ensures Valid()
      ensures sent <==> hasSigner && contractAddress != ""
      ensures loading == (if sent then false else old(loading))
      ensures writes == old(writes) + (if sent then [WriteRecord(CloseProposalCall(proposalId), true)] else [])
      ensures toasts == old(toasts) + WriteActionToasts(sent, clock, CloseSentMsg, "Proposal closed.", outcome, hasProvider, refreshed)
      ensures proposals == WriteActionProposals(sent, old(proposals), outcome, hasProvider, refreshed)
    {
      sent := Write(CloseProposalCall(proposalId), CloseSentMsg, "Proposal closed.", clock, outcome, refreshed);
    }
  }

  const CreateSentMsg := "Transaction sent. Waiting for confirmation\U{2026}"
  const VoteSentMsg := "Vote submitted. Waiting for confirmation\U{2026}"
  const CloseSentMsg := "Closing proposal\U{2026}"

  /**
   * The toasts a write action adds: the refusal, or the toasts of its
   * transaction followed, once confirmed, by those of the reload.
   */
  function WriteActionToasts(sent: bool, clock: Readings, sentMsg: string, doneMsg: string, outcome: TxOutcome,
                             hasProvider: bool, refreshed: FetchOutcome): seq<Toast>
  {
    if !sent then [Toast(clock.first, ConnectFirstMsg, Error)]
    else WriteToasts(clock, sentMsg, doneMsg, outcome)
         + (if outcome.Confirmed? && hasProvider then LoadToasts(clock.third, refreshed) else [])
  }

  /**
   * A write action adds one to three toasts, each stamped with the clock reading
   * taken when it was added; a success toast appears exactly when the
   * transaction was sent and confirmed; a failed transaction ends with the
   * `parseError` message of its error; a refused one adds only the request to
   * connect.
   */
  lemma WriteActionToastsSpec(sent: bool, clock: Readings, sentMsg: string, doneMsg: string, outcome: TxOutcome,
                              hasProvider: bool, refreshed: FetchOutcome)
    ensures var ts := WriteActionToasts(sent, clock, sentMsg, doneMsg, outcome, hasProvider, refreshed);
      && 1 <= |ts| <= 3
      && (forall i :: 0 <= i < |ts| ==> ts[i].id == ReadingAt(clock, i))
      && ((exists i :: 0 <= i < |ts| && ts[i].kind == Success) <==> sent && outcome.Confirmed?)
      && (sent && !outcome.Confirmed? ==> ts[|ts| - 1] == Toast(ReadingAt(clock, |ts| - 1), ParseError(outcome.err), Error))
      && (!sent ==> ts == [Toast(clock.first, ConnectFirstMsg, Error)])
  {
    var ts := WriteActionToasts(sent, clock, sentMsg, doneMsg, outcome, hasProvider, refreshed);
    if sent && outcome.Confirmed? {
      assert ts[1].kind == Success;
    }
  }

  /**
   * The timer of a write's first toast removes the second one too exactly when
   * both were added in the same millisecond: with distinct readings the outcome
   * toast outlives the "sent" toast.
   */
  lemma FirstExpiryKeepsSecond(clock: Readings, sentMsg: string, doneMsg: string, outcome: TxOutcome,
                               hasProvider: bool, refreshed: FetchOutcome)
    requires !outcome.SendFailed?
    ensures var ts := WriteActionToasts(true, clock, sentMsg, doneMsg, outcome, hasProvider, refreshed);
      |ts| >= 2 && (ts[1] in RemoveToasts(ts, clock.first) <==> clock.second != clock.first)
  {
    var ts := WriteActionToasts(true, clock, sentMsg, doneMsg, outcome, hasProvider, refreshed);
    RemoveToastsSpec(ts, clock.first);
    assert ts[1] in ts;
  }

  /** The proposal list after a write action: reloaded only after a confirmed transaction. */
  function WriteActionProposals(sent: bool, before: seq<Proposal>, outcome: TxOutcome,
                                hasProvider: bool, refreshed: FetchOutcome): seq<Proposal>
  {
    if sent && outcome.Confirmed? && hasProvider then LoadedProposals(before, refreshed) else before
  }

  /** The success message of `castVote`. */
  function VotedMsg(support: bool): string
  {
    "Voted " + (if support then "YES \U{2705}" else "NO \U{274C}") + " successfully!"
  }
}
