/** The home page's simplified swap card: both amounts mirror the last
    edit (a one-to-one rate), tokens are picked from a dropdown per side,
    and the swap hands both amounts and symbols to a callback. */
module SwapTokenHomepage {
  import opened Wrappers
  import SwapToken

  datatype TokenInfo = TokenInfo(symbol: string, icon: string)

  const EthIcon: string := "https://www.iconarchive.com/show/cryptocurrency-flat-icons-by-cjdowner/Ethereum-ETH-icon.html"

  datatype Card = Card(
    sellAmount: string,
    buyAmount: string,
    sellToken: Option<TokenInfo>,
    buyToken: Option<TokenInfo>,
    showSellTokens: bool,
    showBuyTokens: bool)

  const InitialCard: Card := Card("", "", Some(TokenInfo("ETH", EthIcon)), None, false, false)

  /** The sell side always holds a token. */
  predicate Valid(c: Card)
  {
    c.sellToken.Some?
  }

  /** Editing either amount: both fields take the sanitised text. */
  function AmountEdited(c: Card, raw: string): (r: Card)
    ensures r.sellAmount == r.buyAmount == SwapToken.Sanitize(raw)
    ensures r.(sellAmount := c.sellAmount, buyAmount := c.buyAmount) == c
  {
    var value := SwapToken.Sanitize(raw);
    c.(sellAmount := value, buyAmount := value)
  }

  /** Editing twice with the same text gives the same card, and editing
      with already sanitised text keeps it as typed. */
  lemma AmountEditStable(c: Card, raw: string)
    ensures AmountEdited(AmountEdited(c, raw), SwapToken.Sanitize(raw)) == AmountEdited(c, raw)
  {
    SwapToken.SanitizeIdempotent(raw);
  }

  /** `handleTokenSelect`: the chosen side takes the token and closes its
      own dropdown; the other side is left alone, even when it holds the
      same token. */
  function Selected(c: Card, side: SwapToken.Side, token: TokenInfo): (r: Card)
    ensures side == SwapToken.Sell ==> r == c.(sellToken := Some(token), showSellTokens := false)
    ensures side == SwapToken.Buy ==> r == c.(buyToken := Some(token), showBuyTokens := false)
  {
    match side
    case Sell => c.(sellToken := Some(token), showSellTokens := false)
    case Buy => c.(buyToken := Some(token), showBuyTokens := false)
  }

  /** Without a same-token guard both sides can end up holding one token. */
  lemma SameTokenAllowed(c: Card, token: TokenInfo)
    requires c.buyToken == Some(token)
    ensures Selected(c, SwapToken.Sell, token).sellToken == Selected(c, SwapToken.Sell, token).buyToken
  {
  }

  /** `toggleDirection`: the sell side takes the buy token, or keeps its own
      when there is none; the buy side takes the old sell token; the
      amounts change sides. */
  function Toggled(c: Card): Card
  {
    c.(sellToken := if c.buyToken.Some? then c.buyToken else c.sellToken,
       buyToken := c.sellToken,
       sellAmount := c.buyAmount,
       buyAmount := c.sellAmount)
  }

  /** With both tokens set, toggling swaps them and twice is the identity;
      with no buy token both sides end up holding the sell token. */
  lemma ToggleSpec(c: Card)
    ensures Toggled(c).sellAmount == c.buyAmount && Toggled(c).buyAmount == c.sellAmount
    ensures Toggled(c).buyToken == c.sellToken
    ensures c.buyToken.None? ==> Toggled(c).sellToken == c.sellToken
    ensures c.buyToken.Some? ==> Toggled(c).sellToken == c.buyToken
    ensures c.sellToken.Some? && c.buyToken.Some? ==> Toggled(Toggled(c)) == c
  {
  }

  /** Every transition keeps a sell token. */
  lemma ValidPreserved(c: Card, raw: string, side: SwapToken.Side, token: TokenInfo)
    requires Valid(c)
    ensures Valid(AmountEdited(c, raw))
    ensures Valid(Selected(c, side, token))
    ensures Valid(Toggled(c))
  {
  }

  lemma InitialValid()
    ensures Valid(InitialCard)
  {
  }

  /** `handleSwap`: the callback runs only with a callback, both amounts and
      both tokens present, and receives the amounts and the two symbols. */
  function SwapRequest(c: Card, hasCallback: bool): (call: Option<SwapToken.SwapCall>)
    ensures call.Some? <==>
      hasCallback && c.sellAmount != "" && c.buyAmount != "" && c.sellToken.Some? && c.buyToken.Some?
    ensures call.Some? ==>
      call.value == SwapToken.SwapCall(c.sellAmount, c.buyAmount, c.sellToken.value.symbol, c.buyToken.value.symbol)
  {
    if hasCallback && c.sellAmount != "" && c.buyAmount != "" && c.sellToken.Some? && c.buyToken.Some? then
      Some(SwapToken.SwapCall(c.sellAmount, c.buyAmount, c.sellToken.value.symbol, c.buyToken.value.symbol))
    else None
  }

  /** The swap button's `disabled` attribute. */
  predicate SwapDisabled(c: Card)
  {
    c.sellAmount == "" || c.buyAmount == "" || c.buyToken.None?
  }

  /** The swap button's caption. */
  function SwapLabel(c: Card): string
  {
    if c.buyToken.None? then "Select token" else "Get started"
  }

  /** On a card that keeps its sell token, a click on an enabled button
      reaches the callback, and a disabled button's guard would refuse it
      too. The caption asks for a token exactly while the buy side is
      empty. */
  lemma ButtonMatchesGuard(c: Card)
    requires Valid(c)
    ensures !SwapDisabled(c) <==> SwapRequest(c, true).Some?
    ensures SwapDisabled(c) ==> SwapRequest(c, true).None?
    ensures SwapLabel(c) == "Select token" <==> c.buyToken.None?
  {
  }

  class SwapCard {
    var sellAmount: string
    var buyAmount: string
    var sellToken: Option<TokenInfo>
    var buyToken: Option<TokenInfo>
    var showSellTokens: bool
    var showBuyTokens: bool

    function Snapshot(): Card
      reads this
    {
      Card(sellAmount, buyAmount, sellToken, buyToken, showSellTokens, showBuyTokens)
    }

    constructor ()
      ensures Snapshot() == InitialCard
    {
      sellAmount := "";
      buyAmount := "";
      sellToken := Some(TokenInfo("ETH", EthIcon));
      buyToken := None;
      showSellTokens := false;
      showBuyTokens := false;
    }

    /** `handleSellAmountChange` and `handleBuyAmountChange` do the same. */
    method HandleAmountChange(raw: string)
      modifies this
      ensures Snapshot() == AmountEdited(old(Snapshot()), raw)
    {
      var value := SwapToken.Sanitize(raw);
      sellAmount := value;
      buyAmount := value;
    }

    method HandleTokenSelect(side: SwapToken.Side, token: TokenInfo)
      modifies this
      ensures Snapshot() == Selected(old(Snapshot()), side, token)
    {
      if side == SwapToken.Sell {
        sellToken := Some(token);
        showSellTokens := false;
      } else {
        buyToken := Some(token);
        showBuyTokens := false;
      }
    }

    method ToggleDirection()
      modifies this
      ensures Snapshot() == Toggled(old(Snapshot()))
    {
      var tempToken := sellToken;
      sellToken := if buyToken.Some? then buyToken else tempToken;
      buyToken := tempToken;
      var tempAmount := sellAmount;
      sellAmount := buyAmount;
      buyAmount := tempAmount;
    }

    /** `handleSwap` changes no state; it only may call the callback. */
    method HandleSwap(hasCallback: bool) returns (call: Option<SwapToken.SwapCall>)
      ensures call == SwapRequest(Snapshot(), hasCallback)
    {
      if hasCallback && sellAmount != "" && buyAmount != "" && sellToken.Some? && buyToken.Some? {
        call := Some(SwapToken.SwapCall(sellAmount, buyAmount, sellToken.value.symbol, buyToken.value.symbol));
      } else {
        call := None;
      }
    }
  }
}
