/**
 * frontend/src/components/ConnectWallet.jsx: the header's wallet control, a
 * badge with the shortened account once connected, the connect button before.
 */
module Wallet {
  import opened Js
  import Card

  /** `shortAddr(addr)`: "" for a missing or empty address, otherwise head, ellipsis, tail. */
  function ShortAddr(addr: Option<string>): string
  {
    if !Truthy(addr) then "" else SliceFirst(addr.value, 6) + "\U{2026}" + SliceLast(addr.value, 4)
  }

  /** Unlike the card's helper, this one prints nothing at all for a missing or empty address. */
  lemma ShortAddrEmpty(addr: Option<string>)
    ensures ShortAddr(addr) == "" <==> !Truthy(addr)
  {
  }

  /** On a present, non-empty address both `shortAddr` helpers agree. */
  lemma ShortAddrAgrees(addr: string)
    requires addr != ""
    ensures ShortAddr(Some(addr)) == Card.ShortAddr(Some(addr))
  {
  }

  /** An address of ten or more characters shortens to its first six, an ellipsis and its last four. */
  lemma ShortAddrLong(addr: string)
    requires |addr| >= 10
    ensures var r := ShortAddr(Some(addr));
      |r| == 11 && r[..6] == addr[..6] && r[6] == '\U{2026}' && r[7..] == addr[|addr| - 4..]
  {
    Card.ShortAddrLong(addr);
    ShortAddrAgrees(addr);
  }

  /** What the component renders. */
  datatype WalletView = Badge(text: string) | ConnectButton

  function View(account: Option<string>): WalletView
  {
    if Truthy(account) then Badge(ShortAddr(account)) else ConnectButton
  }

  /** The badge shows exactly for a truthy account, and then carries its non-empty short form. */
  lemma ViewSpec(account: Option<string>)
    ensures View(account).Badge? <==> Truthy(account)
    ensures View(account).Badge? ==> View(account).text == ShortAddr(account) && View(account).text != ""
  {
  }
}
