/**
 * frontend/src/components/ProposalCard.jsx: the values one proposal card
 * derives from its proposal and the connected account. The clock reading
 * `Date.now()` is a parameter.
 */
module Card {
  import opened Js

  const SecondsPerDay: nat := 86400

  datatype TimeUnit = Minutes | Hours | Days

  function UnitSeconds(u: TimeUnit): nat
  {
    match u
    case Minutes => 60
    case Hours => 3600
    case Days => SecondsPerDay
  }

  function UnitSuffix(u: TimeUnit): string
  {
    match u
    case Minutes => "m ago"
    case Hours => "h ago"
    case Days => "d ago"
  }

  /** How long ago something happened, as `timeAgo` reports it. */
  datatype Age = JustNow | Ago(count: nat, unit: TimeUnit)

  /** `Math.floor(Date.now() / 1000) - ts`: whole seconds since `ts`; negative for a future `ts`. */
  function Elapsed(ts: int, nowMs: nat): int
  {
    nowMs / 1000 - ts
  }

  /**
   * Under a minute (a future time included) is "just now"; otherwise the largest
   * unit among minutes, hours and days that fits, and how many whole ones fit.
   */
  function AgeOf(diff: int): (a: Age)
    ensures a.JustNow? <==> diff < 60
    ensures a.Ago? ==> a.count * UnitSeconds(a.unit) <= diff < (a.count + 1) * UnitSeconds(a.unit)
    ensures a.Ago? ==> a.count >= 1
    ensures a.Ago? ==> (a.unit == Minutes <==> diff < 3600) && (a.unit == Days <==> diff >= SecondsPerDay)
  {
    if diff < 60 then JustNow
    else if diff < 3600 then Ago(diff / 60, Minutes)
    else if diff < SecondsPerDay then Ago(diff / 3600, Hours)
    else Ago(diff / SecondsPerDay, Days)
  }

  function AgeLabel(a: Age): string
  {
    match a
    case JustNow => "just now"
    case Ago(n, u) => NatToDecimal(n) + UnitSuffix(u)
  }

  /** `timeAgo(ts)` read at `nowMs` milliseconds. */
  function TimeAgo(ts: int, nowMs: nat): string
  {
    AgeLabel(AgeOf(Elapsed(ts, nowMs)))
  }

  /** The last five characters of a label. */
  lemma {:induction false} AgeLabelTail(a: Age)
    ensures |AgeLabel(a)| >= 6
    ensures a.JustNow? ==> AgeLabel(a)[|AgeLabel(a)| - 5..] == "t now"
    ensures a.Ago? ==> AgeLabel(a)[|AgeLabel(a)| - 5..] == UnitSuffix(a.unit)
    ensures a.Ago? ==> AgeLabel(a)[..|AgeLabel(a)| - 5] == NatToDecimal(a.count)
  {
    if a.Ago? {
      var d := NatToDecimal(a.count);
      assert AgeLabel(a) == d + UnitSuffix(a.unit);
    }
  }

  /** Different ages get different labels: a label can be read back. */
  lemma AgeLabelInjective(a: Age, b: Age)
    requires AgeLabel(a) == AgeLabel(b)
    ensures a == b
  {
    AgeLabelTail(a);
    AgeLabelTail(b);
    if a.Ago? && b.Ago? {
      assert UnitSuffix(a.unit)[0] == UnitSuffix(b.unit)[0];
      DecimalInjective(a.count, b.count);
    }
  }

  /**
   * `shortAddr(addr = "")`: the first six characters, an ellipsis, the last four.
   * `None` stands for an omitted or `undefined` argument, which takes the
   * default `""`; a `null` creator would make `slice` throw, and is not modelled.
   */
  function ShortAddr(addr: Option<string>): string
  {
    var a := if addr.Some? then addr.value else "";
    SliceFirst(a, 6) + "\U{2026}" + SliceLast(a, 4)
  }

  /** On an address of ten or more characters the result keeps its head and tail around one ellipsis. */
  lemma ShortAddrLong(a: string)
    requires |a| >= 10
    ensures var r := ShortAddr(Some(a));
      |r| == 11 && r[..6] == a[..6] && r[6] == '\U{2026}' && r[7..] == a[|a| - 4..]
  {
  }

  /** `yesVotes + noVotes`. */
  function Total(yesVotes: nat, noVotes: nat): nat
  {
    yesVotes + noVotes
  }

  /** `Math.round(yes / total * 100)`, 0 for a proposal without votes, in exact arithmetic. */
  function YesPct(yesVotes: nat, noVotes: nat): nat
  {
    var total := Total(yesVotes, noVotes);
    if total == 0 then 0 else (200 * yesVotes + total) / (2 * total)
  }

  /**
   * The percentage is 0 without votes; otherwise it is at most 100 and the
   * nearest whole percentage, a half rounding up as `Math.round` does.
   */
  lemma YesPctSpec(yesVotes: nat, noVotes: nat)
    ensures var total, p := Total(yesVotes, noVotes), YesPct(yesVotes, noVotes);
      && (total == 0 ==> p == 0)
      && p <= 100
      && (total > 0 ==> 2 * p * total - total <= 200 * yesVotes < 2 * p * total + total)
  {
    var total := Total(yesVotes, noVotes);
    if total > 0 {
      var p, d, m := YesPct(yesVotes, noVotes), 2 * total, 200 * yesVotes + total;
      assert m == p * d + m % d && 0 <= m % d < d;
      assert 2 * p * total == p * d;
      assert m < 101 * d;
      assert (101 - p) * d == 101 * d - p * d;
      PositiveFactor(101 - p, d);
    }
  }

  /** A product with a positive right factor is positive only if its left factor is. */
  lemma PositiveFactor(a: int, b: int)
    requires b > 0 && a * b > 0
    ensures a > 0
  {
  }

  /** `account?.toLowerCase() === creator.toLowerCase()`. */
  predicate IsCreator(account: Option<string>, creator: string)
  {
    account.Some? && ToLower(account.value) == ToLower(creator)
  }

  /** The viewer is the creator exactly when an account is present and matches the creator up to ASCII case. */
  lemma IsCreatorIff(account: Option<string>, creator: string)
    ensures IsCreator(account, creator)
        <==> account.Some? && |account.value| == |creator|
             && forall i :: 0 <= i < |creator| ==> SameIgnoringCase(account.value[i], creator[i])
  {
    if account.Some? {
      ToLowerEqIff(account.value, creator);
    }
  }

  /** `active && account`: the actions row is shown. */
  predicate ShowActions(active: bool, account: Option<string>)
  {
    active && Truthy(account)
  }

  /** The two vote buttons: in the actions row, unless the account has voted. */
  predicate ShowVoteButtons(active: bool, account: Option<string>, voted: bool)
  {
    ShowActions(active, account) && !voted
  }

  /** The Close button: in the actions row, for the creator only. */
  predicate ShowClose(active: bool, account: Option<string>, creator: string)
  {
    ShowActions(active, account) && IsCreator(account, creator)
  }

  /** A closed proposal, or a viewer without an account, gets no button at all. */
  lemma NoActionsWhenClosedOrAnonymous(active: bool, account: Option<string>, creator: string, voted: bool)
    requires !active || !Truthy(account)
    ensures !ShowVoteButtons(active, account, voted) && !ShowClose(active, account, creator)
  {
  }

  /** The Close button is shown only to a connected account equal to the creator up to case, on an open proposal. */
  lemma ShowCloseMeans(active: bool, account: Option<string>, creator: string)
    ensures ShowClose(active, account, creator)
        <==> active && account.Some? && account.value != "" && |account.value| == |creator|
             && forall i :: 0 <= i < |creator| ==> SameIgnoringCase(account.value[i], creator[i])
  {
    IsCreatorIff(account, creator);
  }

  /** `` `${total} vote${total !== 1 ? "s" : ""}` ``. */
  function VoteCountLabel(total: nat): string
  {
    NatToDecimal(total) + " vote" + (if total != 1 then "s" else "")
  }

  /** The label is the count followed by " vote", plural exactly when the count is not 1. */
  lemma VoteCountLabelSpec(total: nat)
    ensures var l := VoteCountLabel(total);
      && l[|l| - 1] == 's' <==> total != 1
    ensures var l := VoteCountLabel(total);
      && (total == 1 ==> l == "1 vote")
      && (total != 1 ==> l == NatToDecimal(total) + " votes")
  {
    assert NatToDecimal(1) == "1";
  }
}
