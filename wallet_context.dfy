/** The wallet context of the front end: chain-id rendering, the table of
    known networks, and the connection state with its transitions. Wallet
    provider calls (account list, signer, balance, network) arrive as their
    results; browser storage is the `walletFlag` field. */
module WalletContext {
  import opened Wrappers
  import Text

  datatype NetworkInfo = NetworkInfo(chainId: string, name: string, symbol: string)

  /** `"0x" + chainId.toString(16)`. */
  function ChainIdHex(n: nat): (r: string)
    ensures |r| >= 3 && r[..2] == "0x"
    ensures Text.ParseNumeral(r[2..], 16) == Some(n)
    ensures r[2] == '0' <==> n == 0
  {
    Text.NumeralRoundTrip(n, 16);
    Text.NumeralShape(n, 16);
    var r := "0x" + Text.Numeral(n, 16);
    assert r[2..] == Text.Numeral(n, 16);
    r
  }

  /** Distinct chain ids render to distinct strings. */
  lemma ChainIdHexInjective(a: nat, b: nat)
    requires ChainIdHex(a) == ChainIdHex(b)
    ensures a == b
  {
  }

  function Entry(chainId: string, name: string, symbol: string): NetworkInfo
  {
    NetworkInfo(chainId, name, symbol)
  }

  /** The NETWORKS table as written: Holesky is filed under "0x11155111",
      which is Sepolia's decimal chain id with a hexadecimal prefix. */
  const NetworksAsWritten: map<string, NetworkInfo> := map[
    "0x1" := Entry("0x1", "Ethereum Mainnet", "ETH"),
    "0x5" := Entry("0x5", "Goerli Testnet", "ETH"),
    "0xaa36a7" := Entry("0xaa36a7", "Sepolia Testnet", "ETH"),
    "0x11155111" := Entry("0x11155111", "Holesky Testnet", "ETH"),
    "0x89" := Entry("0x89", "Polygon", "MATIC"),
    "0xa86a" := Entry("0xa86a", "Avalanche C-Chain", "AVAX"),
    "0x38" := Entry("0x38", "BNB Smart Chain", "BNB"),
    "0xa4b1" := Entry("0xa4b1", "Arbitrum One", "ETH"),
    "0xa" := Entry("0xa", "Optimism", "ETH"),
    "0x13a" := Entry("0x13a", "Filecoin", "FIL"),
    "0x144" := Entry("0x144", "zkSync Era Mainnet", "ETH"),
    "0x14a33" := Entry("0x14a33", "Base", "ETH"),
    "0x2105" := Entry("0x2105", "Base Sepolia Testnet", "ETH")
  ]

  /** The table with Holesky under its chain id 17000 = 0x4268. */
  const Networks: map<string, NetworkInfo> := map[
    "0x1" := Entry("0x1", "Ethereum Mainnet", "ETH"),
    "0x5" := Entry("0x5", "Goerli Testnet", "ETH"),
    "0xaa36a7" := Entry("0xaa36a7", "Sepolia Testnet", "ETH"),
    "0x4268" := Entry("0x4268", "Holesky Testnet", "ETH"),
    "0x89" := Entry("0x89", "Polygon", "MATIC"),
    "0xa86a" := Entry("0xa86a", "Avalanche C-Chain", "AVAX"),
    "0x38" := Entry("0x38", "BNB Smart Chain", "BNB"),
    "0xa4b1" := Entry("0xa4b1", "Arbitrum One", "ETH"),
    "0xa" := Entry("0xa", "Optimism", "ETH"),
    "0x13a" := Entry("0x13a", "Filecoin", "FIL"),
    "0x144" := Entry("0x144", "zkSync Era Mainnet", "ETH"),
    "0x14a33" := Entry("0x14a33", "Base", "ETH"),
    "0x2105" := Entry("0x2105", "Base Sepolia Testnet", "ETH")
  ]

  /** Every entry of both tables is filed under its own chain id. */
  lemma TablesKeyedByChainId()
    ensures forall k :: k in NetworksAsWritten ==> NetworksAsWritten[k].chainId == k
    ensures forall k :: k in Networks ==> Networks[k].chainId == k
  {
  }

  /** `NETWORKS[hex] || { chainId: hex, name: "Unknown Network (hex)", symbol: "ETH" }`. */
  function LookupIn(table: map<string, NetworkInfo>, hex: string): (r: NetworkInfo)
    ensures hex in table ==> r == table[hex]
    ensures hex !in table ==> r == NetworkInfo(hex, "Unknown Network (" + hex + ")", "ETH")
  {
    if hex in table then table[hex] else NetworkInfo(hex, "Unknown Network (" + hex + ")", "ETH")
  }

  /** The looked-up network always carries the chain id it was asked for. */
  lemma LookupKeepsChainId(n: nat)
    ensures LookupIn(Networks, ChainIdHex(n)).chainId == ChainIdHex(n)
    ensures LookupIn(NetworksAsWritten, ChainIdHex(n)).chainId == ChainIdHex(n)
  {
    TablesKeyedByChainId();
  }

  lemma HoleskyHex()
    ensures ChainIdHex(17000) == "0x4268"
  {
    assert Text.Numeral(4, 16) == "4";
    assert Text.Numeral(66, 16) == Text.Numeral(4, 16) + [Text.DigitChar(2)];
    assert Text.Numeral(1062, 16) == Text.Numeral(66, 16) + [Text.DigitChar(6)];
    assert Text.Numeral(17000, 16) == Text.Numeral(1062, 16) + [Text.DigitChar(8)];
  }

  /** As written, a wallet on Holesky (chain id 17000) is shown as an
      unknown network. */
  lemma HoleskyUnknownAsWritten()
    ensures LookupIn(NetworksAsWritten, ChainIdHex(17000)).name == "Unknown Network (0x4268)"
  {
    HoleskyHex();
    assert "0x4268" !in NetworksAsWritten;
  }

  /** With the corrected key Holesky is recognised. */
  lemma HoleskyKnown()
    ensures LookupIn(Networks, ChainIdHex(17000)) == NetworkInfo("0x4268", "Holesky Testnet", "ETH")
  {
    HoleskyHex();
  }

  /** The two tables differ only at the two Holesky keys: every other
      chain id is shown the same way by both. */
  lemma TablesAgreeElsewhere(hex: string)
    requires hex != "0x4268" && hex != "0x11155111"
    ensures LookupIn(Networks, hex) == LookupIn(NetworksAsWritten, hex)
  {
    assert hex in Networks <==> hex in NetworksAsWritten;
  }

  /** The network shown for a rendered chain id: `NETWORKS[hex]` in the
      table as written, or the unknown-network fallback. Either way it
      carries the chain id asked for, since every entry is filed under its
      own chain id. (Holesky is therefore shown as unknown, see
      HoleskyUnknownAsWritten.) */
  function LookupNetwork(hex: string): (r: NetworkInfo)
    ensures r.chainId == hex
    ensures hex in NetworksAsWritten ==> r == NetworksAsWritten[hex]
    ensures hex !in NetworksAsWritten ==> r.name == "Unknown Network (" + hex + ")" && r.symbol == "ETH"
  {
    TablesKeyedByChainId();
    LookupIn(NetworksAsWritten, hex)
  }

  /** The state the provider exposes, plus the `walletConnected` entry of
      browser storage. */
  datatype Session = Session(
    hasProvider: bool, signer: Option<nat>, account: Option<string>, chainId: Option<string>,
    networkInfo: Option<NetworkInfo>, balance: string, isConnecting: bool, isConnected: bool,
    error: Option<string>, walletFlag: Option<string>)

  const InitialSession: Session :=
    Session(false, None, None, None, None, "0", false, false, None, None)

  /** What the provider answers while account information is refreshed:
      None where the call throws. The balance is already formatted. */
  datatype AccountFetch = AccountFetch(
    accounts: Option<seq<string>>, signer: Option<nat>, balance: Option<string>, chainId: Option<nat>)

  /** `resetWalletState`: signer, account, chain id and network cleared,
      balance "0", disconnected, storage flag removed; provider,
      connecting flag and error kept. */
  function Reset(s: Session): (r: Session)
    ensures r.signer.None? && r.account.None? && r.chainId.None? && r.networkInfo.None?
    ensures r.balance == "0" && !r.isConnected && r.walletFlag.None?
    ensures r.hasProvider == s.hasProvider && r.isConnecting == s.isConnecting && r.error == s.error
  {
    s.(signer := None, account := None, balance := "0", chainId := None, networkInfo := None,
       isConnected := false, walletFlag := None)
  }

  lemma ResetIdempotent(s: Session)
    ensures Reset(Reset(s)) == Reset(s)
  {
  }

  /** `updateNetworkInfo`: the rendered chain id and its table entry, or
      no network when the query throws. */
  function NetworkUpdate(s: Session, chainId: Option<nat>): (r: Session)
    ensures chainId.Some? ==> r.chainId == Some(ChainIdHex(chainId.value)) &&
                              r.networkInfo == Some(LookupNetwork(ChainIdHex(chainId.value))) &&
                              r.networkInfo.value.chainId == r.chainId.value
    ensures chainId.None? ==> r == s.(networkInfo := None)
  {
    LookupKeepsChainId(if chainId.Some? then chainId.value else 0);
    if chainId.Some? then
      s.(chainId := Some(ChainIdHex(chainId.value)), networkInfo := Some(LookupNetwork(ChainIdHex(chainId.value))))
    else s.(networkInfo := None)
  }

  /** `updateAccountInfo`: with no accounts nothing changes and the answer
      is false; a throwing call resets the state; otherwise the first
      account is connected and the storage flag set to "true". */
  function AccountUpdate(s: Session, f: AccountFetch): (r: (Session, bool))
    ensures f.accounts == Some([]) ==> r == (s, false)
    ensures r.1 <==> f.accounts.Some? && |f.accounts.value| > 0 && f.signer.Some? && f.balance.Some?
    ensures r.1 ==> r.0.isConnected && r.0.walletFlag == Some("true") &&
                    r.0.account == Some(f.accounts.value[0]) && r.0.signer == f.signer &&
                    r.0.balance == f.balance.value && r.0 == NetworkUpdate(r.0, f.chainId) &&
                    r.0.error == s.error && r.0.isConnecting == s.isConnecting && r.0.hasProvider == s.hasProvider
    ensures !r.1 && f.accounts != Some([]) ==> r.0 == Reset(s)
  {
    if f.accounts.None? then (Reset(s), false)
    else if |f.accounts.value| == 0 then (s, false)
    else
      var s1 := s.(account := Some(f.accounts.value[0]));
      if f.signer.None? then (Reset(s1), false)
      else
        var s2 := s1.(signer := f.signer);
        if f.balance.None? then (Reset(s2), false)
        else
          var s3 := NetworkUpdate(s2.(balance := f.balance.value), f.chainId);
          (s3.(isConnected := true, walletFlag := Some("true")), true)
  }

  /** How `eth_requestAccounts` ended: accepted, or thrown; `isError`
      says whether the thrown value is an `Error` object. */
  datatype RequestOutcome = Accepted | Threw(isError: bool, message: string)

  const NoProvider: string := "Không tìm thấy Ethereum provider. Vui lòng cài đặt MetaMask!"
  const ProviderFailed: string := "Không thể khởi tạo Ethereum provider"
  const CannotConnect: string := "Không thể kết nối với ví"
  const UserRejected: string := "Người dùng đã từ chối kết nối ví"
  const ConnectFailed: string := "Lỗi khi kết nối với ví MetaMask"
  const RejectMarker: string := "user rejected"

  /** The error message chosen when the account request throws. */
  function RejectionMessage(outcome: RequestOutcome): (m: string)
    requires outcome.Threw?
    ensures m == UserRejected <==> outcome.isError && Text.Contains(outcome.message, RejectMarker)
    ensures m == UserRejected || m == ConnectFailed
  {
    if outcome.isError && Text.Contains(outcome.message, RejectMarker) then UserRejected else ConnectFailed
  }

  /** A message that says "user rejected" anywhere is reported as a
      rejection, whatever precedes or follows it. */
  lemma RejectedAnywhere(prefix: string, suffix: string)
    ensures RejectionMessage(Threw(true, prefix + RejectMarker + suffix)) == UserRejected
  {
    var m := prefix + RejectMarker + suffix;
    assert m[|prefix|..|prefix| + |RejectMarker|] == RejectMarker;
    assert Text.OccursAt(m, RejectMarker, |prefix|);
  }

  class WalletSession {
    var hasProvider: bool
    var signer: Option<nat>
    var account: Option<string>
    var chainId: Option<string>
    var networkInfo: Option<NetworkInfo>
    var balance: string
    var isConnecting: bool
    var isConnected: bool
    var error: Option<string>
    var walletFlag: Option<string>

    function Snapshot(): Session
      reads this
    {
      Session(hasProvider, signer, account, chainId, networkInfo, balance, isConnecting, isConnected, error, walletFlag)
    }

    /** The provider's initial state, with whatever storage holds. */
    constructor (storedFlag: Option<string>)
      ensures Snapshot() == InitialSession.(walletFlag := storedFlag)
    {
      hasProvider := false;
      signer := None;
      account := None;
      chainId := None;
      networkInfo := None;
      balance := "0";
      isConnecting := false;
      isConnected := false;
      error := None;
      walletFlag := storedFlag;
    }

    method ResetWalletState()
      modifies this
      ensures Snapshot() == Reset(old(Snapshot()))
    {
      signer := None;
      account := None;
      balance := "0";
      chainId := None;
      networkInfo := None;
      isConnected := false;
      walletFlag := None;
    }

    method UpdateNetworkInfo(network: Option<nat>)
      modifies this
      ensures Snapshot() == NetworkUpdate(old(Snapshot()), network)
    {
      if network.Some? {
        var hex := ChainIdHex(network.value);
        chainId := Some(hex);
        networkInfo := Some(LookupNetwork(hex));
      } else {
        networkInfo := None;
      }
    }

    method UpdateAccountInfo(f: AccountFetch) returns (connected: bool)
      modifies this
      ensures (Snapshot(), connected) == AccountUpdate(old(Snapshot()), f)
    {
      if f.accounts.None? {
        ResetWalletState();
        return false;
      }
      if |f.accounts.value| == 0 {
        return false;
      }
      account := Some(f.accounts.value[0]);
      if f.signer.None? {
        ResetWalletState();
        return false;
      }
      signer := f.signer;
      if f.balance.None? {
        ResetWalletState();
        return false;
      }
      balance := f.balance.value;
      UpdateNetworkInfo(f.chainId);
      isConnected := true;
      walletFlag := Some("true");
      connected := true;
    }

    /** The initial effect: the provider is created when the browser has
        one (and its construction does not throw), and the account is
        refreshed only when auto-connect is on and storage says "true". */
    method Initialize(autoConnect: bool, ethereumPresent: bool, providerThrows: bool, f: AccountFetch)
      returns (attempted: bool)
      modifies this
      ensures attempted <==> autoConnect && old(walletFlag) == Some("true") && ethereumPresent && !providerThrows
      ensures !isConnecting
      ensures !attempted ==> Snapshot() == InitProvider(old(Snapshot()), ethereumPresent, providerThrows).(isConnecting := false)
      ensures attempted ==>
        Snapshot() == AccountUpdate(InitProvider(old(Snapshot()), ethereumPresent, providerThrows).(isConnecting := true), f).0.(isConnecting := false)
    {
      var shouldAutoConnect := autoConnect && walletFlag == Some("true");
      var ok := InitializeProvider(ethereumPresent, providerThrows);
      attempted := ok && shouldAutoConnect;
      if attempted {
        isConnecting := true;
        var _ := UpdateAccountInfo(f);
      }
      isConnecting := false;
    }

    /** `initializeProvider`: a provider when the browser has one; the
        error otherwise. */
    method InitializeProvider(ethereumPresent: bool, providerThrows: bool) returns (ok: bool)
      modifies this
      ensures ok <==> ethereumPresent && !providerThrows
      ensures Snapshot() == InitProvider(old(Snapshot()), ethereumPresent, providerThrows)
    {
      if !ethereumPresent {
        error := Some(NoProvider);
        return false;
      }
      if providerThrows {
        error := Some(ProviderFailed);
        return false;
      }
      hasProvider := true;
      ok := true;
    }

    /** `handleAccountsChanged`: an empty list resets; a different first
        account with a provider refreshes; anything else does nothing. */
    method OnAccountsChanged(accounts: seq<string>, f: AccountFetch)
      modifies this
      ensures |accounts| == 0 ==> Snapshot() == Reset(old(Snapshot()))
      ensures |accounts| > 0 && (old(account) == Some(accounts[0]) || !old(hasProvider)) ==> Snapshot() == old(Snapshot())
      ensures |accounts| > 0 && old(account) != Some(accounts[0]) && old(hasProvider) ==>
        Snapshot() == AccountUpdate(old(Snapshot()), f).0
    {
      if |accounts| == 0 {
        ResetWalletState();
      } else if account != Some(accounts[0]) && hasProvider {
        var _ := UpdateAccountInfo(f);
      }
    }

    /** `connectWallet`: the state and answer ConnectSpec gives. */
    method ConnectWallet(ethereumPresent: bool, providerThrows: bool, request: RequestOutcome, f: AccountFetch)
      returns (connected: bool)
      modifies this
      ensures (Snapshot(), connected) == ConnectSpec(old(Snapshot()), ethereumPresent, providerThrows, request, f)
    {
      error := None;
      isConnecting := true;
      if !ethereumPresent {
        error := Some(NoProvider);
        isConnecting := false;
        return false;
      }
      if !hasProvider {
        var ok := InitializeProvider(ethereumPresent, providerThrows);
        if !ok {
          isConnecting := false;
          return false;
        }
      }
      if request.Threw? {
        error := Some(RejectionMessage(request));
        ResetWalletState();
        isConnecting := false;
        return false;
      }
      connected := UpdateAccountInfo(f);
      if !connected {
        error := Some(CannotConnect);
      }
      isConnecting := false;
    }
  }

  /** The outcome of `connectWallet` from state s: it clears the error and
      marks connecting; without a browser provider it fails with that
      error; when the provider cannot be created it fails with that error;
      a thrown account request sets the rejection or the generic message
      and resets; otherwise it answers whether the account refresh
      connected, with "cannot connect" when it did not. Connecting ends in
      every case. */
  function ConnectSpec(s: Session, ethereumPresent: bool, providerThrows: bool, request: RequestOutcome,
                       f: AccountFetch): (r: (Session, bool))
    ensures !r.0.isConnecting
    ensures r.1 ==> r.0.isConnected && r.0.error.None? && r.0.walletFlag == Some("true")
    ensures !ethereumPresent ==> r == (s.(error := Some(NoProvider), isConnecting := false), false)
    ensures ethereumPresent && !s.hasProvider && providerThrows ==>
      r == (s.(error := Some(ProviderFailed), isConnecting := false), false)
    ensures ethereumPresent && (s.hasProvider || !providerThrows) && request.Threw? ==>
      r == (Reset(s.(hasProvider := true, error := Some(RejectionMessage(request)), isConnecting := false)), false)
    ensures ethereumPresent && (s.hasProvider || !providerThrows) && request.Accepted? ==>
      var u := AccountUpdate(s.(hasProvider := true, error := None, isConnecting := true), f);
      r == (if u.1 then u.0.(isConnecting := false) else u.0.(error := Some(CannotConnect), isConnecting := false), u.1)
  {
    var s0 := s.(error := None, isConnecting := true);
    if !ethereumPresent then (s0.(error := Some(NoProvider), isConnecting := false), false)
    else
      var s1 := if s0.hasProvider then s0 else InitProvider(s0, ethereumPresent, providerThrows);
      if !s1.hasProvider then (s1.(isConnecting := false), false)
      else if request.Threw? then
        (Reset(s1.(error := Some(RejectionMessage(request)))).(isConnecting := false), false)
      else
        var u := AccountUpdate(s1, f);
        ((if u.1 then u.0 else u.0.(error := Some(CannotConnect))).(isConnecting := false), u.1)
  }

  /** The state after `initializeProvider`. */
  function InitProvider(s: Session, ethereumPresent: bool, providerThrows: bool): (r: Session)
    ensures r.hasProvider <==> s.hasProvider || (ethereumPresent && !providerThrows)
    ensures !ethereumPresent ==> r == s.(error := Some(NoProvider))
  {
    if !ethereumPresent then s.(error := Some(NoProvider))
    else if providerThrows then s.(error := Some(ProviderFailed))
    else s.(hasProvider := true)
  }

  /** Whether the connect prompt shows (once its delay has passed): only
      while disconnected and not previously declined. */
  function ShowModal(isConnected: bool, declinedFlag: Option<string>): (show: bool)
    ensures show ==> !isConnected
    ensures !isConnected && declinedFlag.None? ==> show
    ensures declinedFlag == Some("true") ==> !show
    ensures declinedFlag != Some("true") ==> (show <==> !isConnected)
  {
    !isConnected && declinedFlag != Some("true")
  }
}
