/** The page header: navigation highlighting, the shortened wallet address
    and the header's own connection flags. */
module Header {
  import opened Wrappers
  import Text

  /** A navigation link is highlighted exactly when the current path is
      its path, character for character. */
  predicate IsActive(pathname: string, path: string)
  {
    pathname == path
  }

  const NavPaths: seq<string> := ["/swap", "/liquidity", "/limit-order", "/staking", "/governance"]

  /** At most one navigation link is highlighted, and none on a path that
      is not one of theirs. */
  lemma AtMostOneActive(pathname: string, i: nat, j: nat)
    requires i < |NavPaths| && j < |NavPaths|
    requires IsActive(pathname, NavPaths[i]) && IsActive(pathname, NavPaths[j])
    ensures i == j
  {
    assert NavPaths[0][1] == 's' && NavPaths[1][1] == 'l' && NavPaths[2][1] == 'l';
    assert NavPaths[3][1] == 's' && NavPaths[4][1] == 'g';
    assert NavPaths[0][2] == 'w' && NavPaths[3][2] == 't';
    assert NavPaths[1][2] == 'i' && NavPaths[2][2] == 'i' && NavPaths[1][3] == 'q' && NavPaths[2][3] == 'm';
  }

  /** `address.substring(0, 6) + "..." + address.substring(address.length - 4)`. */
  function Shortened(address: string): string
  {
    Text.Substring(address, 0, 6) + "..." + Text.Substring(address, |address| - 4, |address|)
  }

  /** `formatAddress`: "" stays ""; otherwise the first six characters (or
      all of a shorter address), "...", and the last four (or all of a
      shorter address). */
  function FormatAddress(address: string): (r: string)
    ensures address == "" ==> r == ""
    ensures address != "" ==>
      r == address[..if |address| < 6 then |address| else 6] + "..." +
           address[if |address| < 4 then 0 else |address| - 4..]
    ensures |address| >= 10 ==> |r| == 13
  {
    if address == "" then "" else Shortened(address)
  }

  /** A full-length address keeps its first six and last four characters
      around the ellipsis. */
  lemma FormatKeepsEnds(address: string)
    requires |address| >= 10
    ensures FormatAddress(address)[..6] == address[..6]
    ensures FormatAddress(address)[6..9] == "..."
    ensures FormatAddress(address)[9..] == address[|address| - 4..]
  {
  }

  /** The header's React state, plus whether an `accountsChanged`
      listener has been registered with the wallet. Only `connectWallet`
      registers one, and nothing removes it; further connects add more
      listeners that all do the same thing, so one flag records them. */
  datatype View = View(isWalletConnected: bool, walletAddress: string, isDropdownOpen: bool, listening: bool)

  const InitialView: View := View(false, "", false, false)

  /** `disconnectWallet`: the React state is cleared; a registered
      listener stays registered. */
  function Disconnected(v: View): (r: View)
    ensures !r.isWalletConnected && r.walletAddress == "" && !r.isDropdownOpen
    ensures r.listening == v.listening
  {
    View(false, "", false, v.listening)
  }

  /** An account switch in the wallet. Without a registered listener the
      header does not hear it. Otherwise the callback runs: an empty list
      disconnects, and any other list changes only the shown address, to
      the first account. */
  function AccountsChanged(v: View, accounts: seq<string>): (r: View)
    ensures !v.listening ==> r == v
    ensures v.listening && |accounts| == 0 ==> r == Disconnected(v)
    ensures v.listening && |accounts| > 0 ==> r == v.(walletAddress := accounts[0])
  {
    if !v.listening then v
    else if |accounts| == 0 then Disconnected(v) else v.(walletAddress := accounts[0])
  }

  /** The mount check: accounts the wallet already exposes connect the
      header; an absent wallet, a failing call or an empty list change
      nothing. */
  function Checked(v: View, accounts: seq<string>): (r: View)
    ensures |accounts| > 0 ==> r == v.(walletAddress := accounts[0], isWalletConnected := true)
    ensures |accounts| == 0 ==> r == v
  {
    if |accounts| > 0 then v.(walletAddress := accounts[0], isWalletConnected := true) else v
  }

  /** `connectWallet`, given the accounts the wallet granted (None when
      there is no wallet or the request throws): a granted list connects
      the header, shows its first account and registers the
      `accountsChanged` listener; an empty list still connects, with the
      undefined first account shown like the empty address. */
  function Connected(v: View, granted: Option<seq<string>>): (r: View)
    ensures granted.None? ==> r == v
    ensures granted.Some? ==> r.isWalletConnected && r.listening && r.isDropdownOpen == v.isDropdownOpen
    ensures granted.Some? && |granted.value| > 0 ==> r.walletAddress == granted.value[0]
    ensures granted.Some? && |granted.value| == 0 ==> FormatAddress(r.walletAddress) == ""
  {
    match granted
    case None => v
    case Some(accounts) =>
      v.(walletAddress := if |accounts| > 0 then accounts[0] else "", isWalletConnected := true,
         listening := true)
  }

  /** The address button flips the dropdown; a click outside it closes an
      open dropdown. Neither touches the connection. */
  function DropdownToggled(v: View): (r: View)
    ensures r.isDropdownOpen != v.isDropdownOpen
    ensures r.(isDropdownOpen := v.isDropdownOpen) == v
  {
    v.(isDropdownOpen := !v.isDropdownOpen)
  }

  function ClickedOutside(v: View): (r: View)
    ensures !r.isDropdownOpen
    ensures r.(isDropdownOpen := v.isDropdownOpen) == v
  {
    if v.isDropdownOpen then v.(isDropdownOpen := false) else v
  }

  /** Connecting then switching to a non-empty list shows the switched-to
      account while staying connected; a disconnect after a connect gives
      the initial view except that the listener stays registered. */
  lemma ConnectThenSwitch(v: View, granted: seq<string>, accounts: seq<string>)
    requires |accounts| > 0
    ensures AccountsChanged(Connected(v, Some(granted)), accounts).isWalletConnected
    ensures AccountsChanged(Connected(v, Some(granted)), accounts).walletAddress == accounts[0]
    ensures Disconnected(Connected(v, Some(granted))) == InitialView.(listening := true)
    ensures DropdownToggled(DropdownToggled(v)) == v
  {
  }

  /** A header connected only by the mount check, which registers no
      listener, keeps showing the account it found when the wallet
      switches accounts, and stays connected when the wallet empties the
      list. */
  lemma MountCheckDoesNotListen(found: seq<string>, accounts: seq<string>)
    requires |found| > 0
    ensures Checked(InitialView, found).isWalletConnected
    ensures AccountsChanged(Checked(InitialView, found), accounts).isWalletConnected
    ensures AccountsChanged(Checked(InitialView, found), accounts).walletAddress == found[0]
  {
  }

  /** A disconnected header shows no address. After a button connect and a
      disconnect, the lingering listener still hears account switches: the
      new address is shown, but the header stays disconnected. */
  lemma DisconnectSpec(v: View, accounts: seq<string>)
    ensures Disconnected(Disconnected(v)) == Disconnected(v)
    ensures FormatAddress(Disconnected(v).walletAddress) == ""
    ensures |accounts| > 0 ==> !AccountsChanged(Disconnected(v), accounts).isWalletConnected
    ensures v.listening && |accounts| > 0 && accounts[0] != "" ==>
      FormatAddress(AccountsChanged(Disconnected(v), accounts).walletAddress) != ""
  {
  }

  class HeaderState {
    var isWalletConnected: bool
    var walletAddress: string
    var isDropdownOpen: bool
    var listening: bool

    function Snapshot(): View
      reads this
    {
      View(isWalletConnected, walletAddress, isDropdownOpen, listening)
    }

    constructor ()
      ensures Snapshot() == InitialView
    {
      isWalletConnected := false;
      walletAddress := "";
      isDropdownOpen := false;
      listening := false;
    }

    method DisconnectWallet()
      modifies this
      ensures Snapshot() == Disconnected(old(Snapshot()))
    {
      isWalletConnected := false;
      walletAddress := "";
      isDropdownOpen := false;
    }

    /** A wallet account switch: heard only through the listener
        `connectWallet` registers. */
    method OnAccountsChanged(accounts: seq<string>)
      modifies this
      ensures Snapshot() == AccountsChanged(old(Snapshot()), accounts)
    {
      if !listening {
        return;
      }
      if |accounts| == 0 {
        DisconnectWallet();
      } else {
        walletAddress := accounts[0];
      }
    }

    method ConnectWallet(granted: Option<seq<string>>)
      modifies this
      ensures Snapshot() == Connected(old(Snapshot()), granted)
    {
      if granted.Some? {
        var accounts := granted.value;
        walletAddress := if |accounts| > 0 then accounts[0] else "";
        isWalletConnected := true;
        listening := true;
      }
    }

    method ToggleDropdown()
      modifies this
      ensures Snapshot() == DropdownToggled(old(Snapshot()))
    {
      isDropdownOpen := !isDropdownOpen;
    }

    method HandleClickOutside()
      modifies this
      ensures Snapshot() == ClickedOutside(old(Snapshot()))
    {
      if isDropdownOpen {
        isDropdownOpen := false;
      }
    }

    /** `checkIfWalletIsConnected`, given the account list the wallet
        answered ([] when there is no wallet or the call throws). */
    method CheckIfWalletIsConnected(accounts: seq<string>)
      modifies this
      ensures Snapshot() == Checked(old(Snapshot()), accounts)
    {
      if |accounts| > 0 {
        walletAddress := accounts[0];
        isWalletConnected := true;
      }
    }
  }
}
