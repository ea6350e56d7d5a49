/** The swap form: the amount sanitiser, the token search filter, pair
    selection and toggling, the settings inputs and the swap guard. Prices
    are floating point and arrive as already formatted strings. */
module SwapToken {
  import opened Wrappers
  import Text
  import Js

  datatype Token = Token(address: string, name: string, symbol: string)

  /** The characters the amount inputs keep. */
  predicate AmountChar(c: char)
  {
    '0' <= c <= '9' || c == '.'
  }

  /** `value.replace(/[^0-9.]/g, "")`. */
  function Sanitize(s: string): (r: string)
    ensures |r| <= |s|
    ensures forall i :: 0 <= i < |r| ==> AmountChar(r[i])
    decreases |s|
  {
    if |s| == 0 then ""
    else (if AmountChar(s[0]) then [s[0]] else "") + Sanitize(s[1..])
  }

  /** Sanitising works character by character: it distributes over
      concatenation, so the kept characters stay in their order. */
  lemma {:induction false} SanitizeAppend(a: string, b: string)
    ensures Sanitize(a + b) == Sanitize(a) + Sanitize(b)
    decreases |a|
  {
    if |a| == 0 {
      assert a + b == b;
    } else {
      SanitizeAppend(a[1..], b);
      assert (a + b)[0] == a[0] && (a + b)[1..] == a[1..] + b;
      var head := if AmountChar(a[0]) then [a[0]] else "";
      assert Sanitize(a + b) == head + Sanitize(a[1..] + b);
      assert head + (Sanitize(a[1..]) + Sanitize(b)) == (head + Sanitize(a[1..])) + Sanitize(b);
    }
  }

  /** A string of digits and dots, any number of dots included, is kept
      as it is. */
  lemma {:induction false} SanitizeKeeps(s: string)
    requires forall i :: 0 <= i < |s| ==> AmountChar(s[i])
    ensures Sanitize(s) == s
    decreases |s|
  {
    if |s| > 0 {
      SanitizeKeeps(s[1..]);
      assert [s[0]] + s[1..] == s;
    }
  }

  /** A string without digits and dots sanitises to "". */
  lemma {:induction false} SanitizeDrops(s: string)
    requires forall i :: 0 <= i < |s| ==> !AmountChar(s[i])
    ensures Sanitize(s) == ""
    decreases |s|
  {
    if |s| > 0 {
      SanitizeDrops(s[1..]);
    }
  }

  lemma SanitizeIdempotent(s: string)
    ensures Sanitize(Sanitize(s)) == Sanitize(s)
  {
    SanitizeKeeps(Sanitize(s));
  }

  /** The dropdown's search: a token matches when its lower-cased name or
      symbol contains the lower-cased term. */
  predicate Matches(t: Token, term: string)
  {
    Text.Contains(Text.ToLower(t.name), Text.ToLower(term)) ||
    Text.Contains(Text.ToLower(t.symbol), Text.ToLower(term))
  }

  /** `tokens.filter(...)` with the search term. */
  function FilterTokens(tokens: seq<Token>, term: string): (r: seq<Token>)
    ensures |r| <= |tokens|
    decreases |tokens|
  {
    if |tokens| == 0 then []
    else Kept(tokens[0], term) + FilterTokens(tokens[1..], term)
  }

  /** What the filter keeps of one token. */
  function Kept(t: Token, term: string): seq<Token>
  {
    if Matches(t, term) then [t] else []
  }

  /** The filter keeps exactly the matching tokens. */
  lemma {:induction false} FilterMembers(tokens: seq<Token>, term: string)
    ensures forall t :: t in FilterTokens(tokens, term) <==> t in tokens && Matches(t, term)
    decreases |tokens|
  {
    if |tokens| > 0 {
      FilterMembers(tokens[1..], term);
      assert tokens == [tokens[0]] + tokens[1..];
    }
  }

  /** Filtering keeps the list's order: it distributes over concatenation. */
  lemma {:induction false} FilterAppend(a: seq<Token>, b: seq<Token>, term: string)
    ensures FilterTokens(a + b, term) == FilterTokens(a, term) + FilterTokens(b, term)
    decreases |a|
  {
    if |a| == 0 {
      assert a + b == b;
    } else {
      FilterAppend(a[1..], b, term);
      assert (a + b)[0] == a[0] && (a + b)[1..] == a[1..] + b;
      var head := Kept(a[0], term);
      assert FilterTokens(a + b, term) == head + FilterTokens(a[1..] + b, term);
      assert head + (FilterTokens(a[1..], term) + FilterTokens(b, term)) ==
             (head + FilterTokens(a[1..], term)) + FilterTokens(b, term);
    }
  }

  /** An empty search shows every token, in the given order. */
  lemma {:induction false} FilterEmptyTerm(tokens: seq<Token>)
    ensures FilterTokens(tokens, "") == tokens
    decreases |tokens|
  {
    if |tokens| > 0 {
      Text.ContainsEmpty(Text.ToLower(tokens[0].name));
      FilterEmptyTerm(tokens[1..]);
      assert [tokens[0]] + tokens[1..] == tokens;
    }
  }

  /** The search ignores the case of the term. */
  lemma {:induction false} FilterIgnoresCase(tokens: seq<Token>, term: string)
    ensures FilterTokens(tokens, Text.ToLower(term)) == FilterTokens(tokens, term)
    decreases |tokens|
  {
    Text.ToLowerIdempotent(term);
    if |tokens| > 0 {
      FilterIgnoresCase(tokens[1..], term);
    }
  }

  /** The tokens the form loads on mount. */
  const MockTokens: seq<Token> := [
    Token("0xEth123", "Ethereum", "ETH"),
    Token("0xBtc123", "Bitcoin", "BTC"),
    Token("0xUsdt123", "Tether", "USDT"),
    Token("0xDai123", "DAI", "DAI"),
    Token("0xUsdc123", "USD Coin", "USDC")
  ]

  const ConnectFirst: string := "Please connect your wallet before trading"
  const FillIn: string := "Please fill in all trade information"
  const SwapFailed: string := "Transaction failed. Please try again later."

  datatype Side = Sell | Buy

  /** The form's state. Slippage is kept exactly as a real number. */
  datatype Form = Form(
    sellAmount: string,
    buyAmount: string,
    sellToken: Option<Token>,
    buyToken: Option<Token>,
    error: string,
    slippage: real,
    deadlineMinutes: int)

  const InitialForm: Form := Form("", "", None, None, "", 0.5, 20)

  /** Both sides hold a token and the two tokens have different addresses. */
  predicate DistinctPair(f: Form)
  {
    f.sellToken.Some? && f.buyToken.Some? && f.sellToken.value.address != f.buyToken.value.address
  }

  /** Loading the token list: the first two become the default pair. */
  function Loaded(f: Form, tokens: seq<Token>): (r: Form)
    ensures |tokens| >= 2 ==> r.sellToken == Some(tokens[0]) && r.buyToken == Some(tokens[1])
    ensures |tokens| >= 2 ==> r == f.(sellToken := r.sellToken, buyToken := r.buyToken)
    ensures |tokens| < 2 ==> r == f
  {
    if |tokens| >= 2 then f.(sellToken := Some(tokens[0]), buyToken := Some(tokens[1])) else f
  }

  /** After loading the built-in list the pair is distinct. */
  lemma MockPairDistinct()
    ensures DistinctPair(Loaded(InitialForm, MockTokens))
  {
    assert MockTokens[0].address[2] == 'E' && MockTokens[1].address[2] == 'B';
  }

  /** `handleTokenSelect`: picking, on one side, the token the other side
      holds moves the other side's old token across; both amounts are
      cleared. */
  function Selected(f: Form, side: Side, token: Token): Form
  {
    match side
    case Sell =>
      var buy := if f.buyToken.Some? && token.address == f.buyToken.value.address then f.sellToken else f.buyToken;
      f.(sellToken := Some(token), buyToken := buy, sellAmount := "", buyAmount := "")
    case Buy =>
      var sell := if f.sellToken.Some? && token.address == f.sellToken.value.address then f.buyToken else f.sellToken;
      f.(buyToken := Some(token), sellToken := sell, sellAmount := "", buyAmount := "")
  }

  /** Selecting the token the other side holds swaps the pair; selecting
      any other token changes only the chosen side. Amounts are always
      reset and nothing else changes. */
  lemma SelectSpec(f: Form, side: Side, token: Token)
    ensures Selected(f, side, token).sellAmount == "" && Selected(f, side, token).buyAmount == ""
    ensures Selected(f, side, token).(sellToken := f.sellToken, buyToken := f.buyToken, sellAmount := f.sellAmount, buyAmount := f.buyAmount) == f
    ensures side == Sell && f.buyToken == Some(token) ==>
      Selected(f, side, token).sellToken == Some(token) && Selected(f, side, token).buyToken == f.sellToken
    ensures side == Buy && f.sellToken == Some(token) ==>
      Selected(f, side, token).buyToken == Some(token) && Selected(f, side, token).sellToken == f.buyToken
    ensures side == Sell && (f.buyToken.None? || f.buyToken.value.address != token.address) ==>
      Selected(f, side, token).sellToken == Some(token) && Selected(f, side, token).buyToken == f.buyToken
    ensures side == Buy && (f.sellToken.None? || f.sellToken.value.address != token.address) ==>
      Selected(f, side, token).buyToken == Some(token) && Selected(f, side, token).sellToken == f.sellToken
  {
  }

  /** A distinct pair stays distinct whatever token is selected on
      whichever side. */
  lemma SelectKeepsDistinct(f: Form, side: Side, token: Token)
    requires DistinctPair(f)
    ensures DistinctPair(Selected(f, side, token))
  {
  }

  /** `toggleDirection`: tokens and amounts change sides. */
  function Toggled(f: Form): Form
  {
    f.(sellToken := f.buyToken, buyToken := f.sellToken, sellAmount := f.buyAmount, buyAmount := f.sellAmount)
  }

  /** Toggling twice restores the form, and toggling keeps a pair
      distinct. */
  lemma ToggleInvolution(f: Form)
    ensures Toggled(Toggled(f)) == f
    ensures DistinctPair(f) <==> DistinctPair(Toggled(f))
  {
  }

  /** Editing one amount: that side takes the sanitised text; the other
      side is cleared when a token is missing, the text is empty or it
      parses to zero, and otherwise takes the quoted amount. */
  function AmountEdited(f: Form, side: Side, raw: string, parsesToZero: bool, quote: string): (r: Form)
    ensures side == Sell ==> r.sellAmount == Sanitize(raw) && r == f.(sellAmount := r.sellAmount, buyAmount := r.buyAmount)
    ensures side == Buy ==> r.buyAmount == Sanitize(raw) && r == f.(sellAmount := r.sellAmount, buyAmount := r.buyAmount)
  {
    var value := Sanitize(raw);
    var other := if f.sellToken.None? || f.buyToken.None? || value == "" || parsesToZero then "" else quote;
    match side
    case Sell => f.(sellAmount := value, buyAmount := other)
    case Buy => f.(buyAmount := value, sellAmount := other)
  }

  /** An edit that leaves no digit or dot clears the opposite field too. */
  lemma EmptyAmountClears(f: Form, side: Side, raw: string, parsesToZero: bool, quote: string)
    requires forall i :: 0 <= i < |raw| ==> !AmountChar(raw[i])
    ensures AmountEdited(f, side, raw, parsesToZero, quote).sellAmount == ""
    ensures AmountEdited(f, side, raw, parsesToZero, quote).buyAmount == ""
  {
    SanitizeDrops(raw);
  }

  /** `handleSlippageChange`: a parsed value (None for NaN) is taken only
      when it lies in [0, 100]. */
  function SlippageSet(f: Form, parsed: Option<real>): (r: Form)
    ensures r != f ==> parsed.Some? && 0.0 <= parsed.value <= 100.0
    ensures parsed.Some? && 0.0 <= parsed.value <= 100.0 ==> r == f.(slippage := parsed.value)
    ensures !(parsed.Some? && 0.0 <= parsed.value <= 100.0) ==> r == f
  {
    if parsed.Some? && 0.0 <= parsed.value <= 100.0 then f.(slippage := parsed.value) else f
  }

  /** `handleDeadlineChange`: the text goes through `parseInt`, and the
      result is taken only when it is a positive number. */
  function DeadlineSet(f: Form, text: string): (r: Form)
  {
    match Js.ParseInt(Js.Str(text))
    case Some(v) => if v > 0 then f.(deadlineMinutes := v) else f
    case None => f
  }

  /** The deadline changes exactly when the text parses to a positive
      integer, and then to that integer; nothing else changes. */
  lemma DeadlineSpec(f: Form, text: string)
    ensures DeadlineSet(f, text) == f.(deadlineMinutes := DeadlineSet(f, text).deadlineMinutes)
    ensures Js.ParseInt(Js.Str(text)).Some? && Js.ParseInt(Js.Str(text)).value > 0 ==>
      DeadlineSet(f, text).deadlineMinutes == Js.ParseInt(Js.Str(text)).value
    ensures !(Js.ParseInt(Js.Str(text)).Some? && Js.ParseInt(Js.Str(text)).value > 0) ==>
      DeadlineSet(f, text) == f
  {
  }

  /** Typing the decimal rendering of a positive count sets exactly that
      deadline; zero or a negative count is ignored. */
  lemma DeadlineOfDecimal(f: Form, minutes: int)
    ensures DeadlineSet(f, Text.SignedDecimal(minutes)) ==
      (if minutes > 0 then f.(deadlineMinutes := minutes) else f)
  {
    Js.ParseIntOfDecimal(minutes);
  }

  /** The message `handleSwap` stops with, if any: not connected wins over
      a missing token or amount. */
  function SwapBlocker(f: Form, isConnected: bool): (r: Option<string>)
    ensures r == Some(ConnectFirst) <==> !isConnected
    ensures r == Some(FillIn) <==>
      isConnected && (f.sellToken.None? || f.buyToken.None? || f.sellAmount == "" || f.buyAmount == "")
    ensures r.None? <==>
      isConnected && f.sellToken.Some? && f.buyToken.Some? && f.sellAmount != "" && f.buyAmount != ""
  {
    if f.sellToken.None? || f.buyToken.None? || f.sellAmount == "" || f.buyAmount == "" || !isConnected then
      Some(if !isConnected then ConnectFirst else FillIn)
    else None
  }

  /** The arguments handed to the `onSwap` callback. */
  datatype SwapCall = SwapCall(sellAmount: string, buyAmount: string, sellSymbol: string, buySymbol: string)

  /** The form after `handleSwap`: a blocked swap only sets the message; a
      callback that throws leaves the amounts and reports failure;
      otherwise the amounts are cleared and the message is "". */
  function Swapped(f: Form, isConnected: bool, callbackThrows: bool): (r: Form)
    ensures r == f.(error := r.error, sellAmount := r.sellAmount, buyAmount := r.buyAmount)
    ensures SwapBlocker(f, isConnected).Some? ==> r == f.(error := SwapBlocker(f, isConnected).value)
    ensures SwapBlocker(f, isConnected).None? && callbackThrows ==> r == f.(error := SwapFailed)
    ensures SwapBlocker(f, isConnected).None? && !callbackThrows ==> r == f.(error := "", sellAmount := "", buyAmount := "")
  {
    match SwapBlocker(f, isConnected)
    case Some(message) => f.(error := message)
    case None => if callbackThrows then f.(error := SwapFailed) else f.(error := "", sellAmount := "", buyAmount := "")
  }

  class SwapForm {
    var sellAmount: string
    var buyAmount: string
    var sellToken: Option<Token>
    var buyToken: Option<Token>
    var error: string
    var slippage: real
    var deadlineMinutes: int

    function Snapshot(): Form
      reads this
    {
      Form(sellAmount, buyAmount, sellToken, buyToken, error, slippage, deadlineMinutes)
    }

    constructor ()
      ensures Snapshot() == InitialForm
    {
      sellAmount := "";
      buyAmount := "";
      sellToken := None;
      buyToken := None;
      error := "";
      slippage := 0.5;
      deadlineMinutes := 20;
    }

    /** The mount effect that installs the token list. */
    method LoadTokens(tokens: seq<Token>)
      modifies this
      ensures Snapshot() == Loaded(old(Snapshot()), tokens)
    {
      if |tokens| >= 2 {
        sellToken := Some(tokens[0]);
        buyToken := Some(tokens[1]);
      }
    }

    method HandleTokenSelect(side: Side, token: Token)
      modifies this
      ensures Snapshot() == Selected(old(Snapshot()), side, token)
    {
      if side == Sell {
        if buyToken.Some? && token.address == buyToken.value.address {
          buyToken := sellToken;
        }
        sellToken := Some(token);
      } else {
        if sellToken.Some? && token.address == sellToken.value.address {
          sellToken := buyToken;
        }
        buyToken := Some(token);
      }
      sellAmount := "";
      buyAmount := "";
    }

    method ToggleDirection()
      modifies this
      ensures Snapshot() == Toggled(old(Snapshot()))
    {
      var tempToken := sellToken;
      sellToken := buyToken;
      buyToken := tempToken;
      var tempAmount := sellAmount;
      sellAmount := buyAmount;
      buyAmount := tempAmount;
    }

    /** `handleSellAmountChange` / `handleBuyAmountChange` followed by the
        opposite side's update. */
    method HandleAmountChange(side: Side, raw: string, parsesToZero: bool, quote: string)
      modifies this
      ensures Snapshot() == AmountEdited(old(Snapshot()), side, raw, parsesToZero, quote)
    {
      var value := Sanitize(raw);
      var cleared := sellToken.None? || buyToken.None? || value == "" || parsesToZero;
      if side == Sell {
        sellAmount := value;
        buyAmount := if cleared then "" else quote;
      } else {
        buyAmount := value;
        sellAmount := if cleared then "" else quote;
      }
    }

    method HandleSlippageChange(parsed: Option<real>)
      modifies this
      ensures Snapshot() == SlippageSet(old(Snapshot()), parsed)
    {
      if parsed.Some? && 0.0 <= parsed.value && parsed.value <= 100.0 {
        slippage := parsed.value;
      }
    }

    method HandleDeadlineChange(text: string)
      modifies this
      ensures Snapshot() == DeadlineSet(old(Snapshot()), text)
    {
      var value := Js.ParseInt(Js.Str(text));
      if value.Some? && value.value > 0 {
        deadlineMinutes := value.value;
      }
    }

    /** `handleSwap`; `called` is what the callback received, when it was
        called. */
    method HandleSwap(isConnected: bool, hasCallback: bool, callbackThrows: bool) returns (called: Option<SwapCall>)
      modifies this
      ensures Snapshot() == Swapped(old(Snapshot()), isConnected, hasCallback && callbackThrows)
      ensures called.Some? <==> hasCallback && SwapBlocker(old(Snapshot()), isConnected).None?
      ensures called.Some? ==>
        called.value == SwapCall(old(sellAmount), old(buyAmount), old(sellToken).value.symbol, old(buyToken).value.symbol)
    {
      var blocker := SwapBlocker(Snapshot(), isConnected);
      if blocker.Some? {
        error := blocker.value;
        return None;
      }
      error := "";
      called := None;
      if hasCallback {
        called := Some(SwapCall(sellAmount, buyAmount, sellToken.value.symbol, buyToken.value.symbol));
        if callbackThrows {
          error := SwapFailed;
          return;
        }
      }
      sellAmount := "";
      buyAmount := "";
    }
  }
}
