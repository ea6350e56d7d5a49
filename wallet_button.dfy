/** The wallet button: what it shows for a wallet session. */
module WalletButton {
  import opened Wrappers
  import Header
  import WalletContext

  /** `formatAddress` here has no guard for the empty address. */
  function FormatAddress(address: string): (r: string)
    ensures address == "" ==> r == "..."
    ensures address != "" ==> r == Header.FormatAddress(address)
  {
    Header.Shortened(address)
  }

  /** The connected panel shows only while connected with a non-empty
      account; otherwise the connect button shows. */
  predicate ShowsPanel(isConnected: bool, account: Option<string>)
  {
    isConnected && account.Some? && account.value != ""
  }

  /** `networkInfo?.name || "Unknown Network"`. */
  function NetworkName(info: Option<WalletContext.NetworkInfo>): (r: string)
    ensures info.Some? && info.value.name != "" ==> r == info.value.name
    ensures (info.None? || info.value.name == "") ==> r == "Unknown Network"
  {
    if info.Some? && info.value.name != "" then info.value.name else "Unknown Network"
  }

  /** `networkInfo?.symbol || "ETH"`. */
  function NetworkSymbol(info: Option<WalletContext.NetworkInfo>): (r: string)
    ensures info.Some? && info.value.symbol != "" ==> r == info.value.symbol
    ensures (info.None? || info.value.symbol == "") ==> r == "ETH"
  {
    if info.Some? && info.value.symbol != "" then info.value.symbol else "ETH"
  }

  /** A network the session looked up is always shown by its own name and
      symbol: the table and the unknown-network entry fill them in, so
      the fallbacks apply only before a lookup. */
  lemma LookedUpNetworkShown(hex: string)
    ensures NetworkName(Some(WalletContext.LookupNetwork(hex))) == WalletContext.LookupNetwork(hex).name
    ensures NetworkSymbol(Some(WalletContext.LookupNetwork(hex))) == WalletContext.LookupNetwork(hex).symbol
  {
    var info := WalletContext.LookupNetwork(hex);
    if hex in WalletContext.NetworksAsWritten {
      assert forall k :: k in WalletContext.NetworksAsWritten ==>
        WalletContext.NetworksAsWritten[k].name != "" && WalletContext.NetworksAsWritten[k].symbol != "";
    } else {
      var unknown := "Unknown Network (" + hex + ")";
      assert info.name == unknown && unknown[0] == 'U';
    }
  }

  const ConnectLabel: string := "Kết nối với MetaMask"
  const ConnectingLabel: string := "Đang kết nối..."

  /** The connect button: disabled and captioned as connecting exactly
      while a connection is in progress. */
  function ConnectButton(isConnecting: bool): (r: (bool, string))
    ensures r.0 <==> isConnecting
    ensures r.1 == ConnectingLabel <==> isConnecting
    ensures r.1 == ConnectLabel <==> !isConnecting
  {
    if isConnecting then (true, ConnectingLabel) else (false, ConnectLabel)
  }

  /** What the button area renders for a session. */
  datatype Rendering =
    | Panel(network: string, symbol: string, address: string)
    | ConnectPrompt(disabled: bool, caption: string)

  function Render(s: WalletContext.Session): (r: Rendering)
    ensures r.Panel? <==> ShowsPanel(s.isConnected, s.account)
    ensures r.Panel? ==> r.address == Header.FormatAddress(s.account.value)
    ensures r.ConnectPrompt? ==> (r.disabled <==> s.isConnecting)
  {
    if ShowsPanel(s.isConnected, s.account) then
      Panel(NetworkName(s.networkInfo), NetworkSymbol(s.networkInfo), FormatAddress(s.account.value))
    else
      var b := ConnectButton(s.isConnecting);
      ConnectPrompt(b.0, b.1)
  }

  /** After a reset the session renders the connect prompt. */
  lemma ResetShowsPrompt(s: WalletContext.Session)
    ensures Render(WalletContext.Reset(s)).ConnectPrompt?
  {
  }
}
