/** Request validation middleware of the order API. Address checking and the
    numeric tests (`isAddress`, `isNaN`, `parseFloat(...) > 0`) are library
    calls and arrive as predicates. */
module Validation {
  import opened Wrappers
  import Text
  import Js

  /** What a middleware does: pass the request on, or answer with an
      error status, a message and (for order validation) the list of
      failing fields. */
  datatype Verdict = Next | Rejected(status: nat, message: string, errors: seq<string>)

  const InvalidUserAddress: string := "Invalid user address"
  const InvalidTokenOut: string := "Invalid token out address"
  const InvalidAmountIn: string := "Invalid amount in"
  const InvalidTargetPrice: string := "Invalid target price"
  const ValidationFailed: string := "Validation failed"
  const InvalidAddressParameter: string := "Invalid address parameter"
  const InvalidPage: string := "Invalid page parameter"
  const InvalidLimit: string := "Invalid limit parameter (1-100)"

  /** The messages of the order checks, in the order the checks run. */
  const OrderMessages: seq<string> := [InvalidUserAddress, InvalidTokenOut, InvalidAmountIn, InvalidTargetPrice]

  /** The messages whose check failed, keeping their order. */
  function Selected(failing: seq<bool>, messages: seq<string>): seq<string>
    requires |failing| == |messages|
    decreases |failing|
  {
    if |failing| == 0 then []
    else (if failing[0] then [messages[0]] else []) + Selected(failing[1..], messages[1..])
  }

  /** With distinct messages, a message is reported exactly when its check
      fails; nothing is reported exactly when no check fails; at most one
      message per check. */
  lemma {:induction false} SelectedSpec(failing: seq<bool>, messages: seq<string>)
    requires |failing| == |messages|
    requires forall i, j :: 0 <= i < j < |messages| ==> messages[i] != messages[j]
    ensures |Selected(failing, messages)| <= |messages|
    ensures forall i :: 0 <= i < |failing| ==> (messages[i] in Selected(failing, messages) <==> failing[i])
    ensures Selected(failing, messages) == [] <==> forall i :: 0 <= i < |failing| ==> !failing[i]
    ensures forall m :: m in Selected(failing, messages) ==> m in messages
    decreases |failing|
  {
    if |failing| > 0 {
      var rest := Selected(failing[1..], messages[1..]);
      SelectedSpec(failing[1..], messages[1..]);
      assert Selected(failing, messages) == (if failing[0] then [messages[0]] else []) + rest;
      assert messages[0] !in rest by {
        forall m | m in rest ensures m != messages[0] {
          assert m in messages[1..];
          var k :| 0 <= k < |messages[1..]| && messages[1..][k] == m;
          assert messages[k + 1] == m;
        }
      }
      forall i | 1 <= i < |failing|
        ensures messages[i] in Selected(failing, messages) <==> failing[i]
      {
        assert messages[1..][i - 1] == messages[i] && failing[1..][i - 1] == failing[i];
      }
      if rest == [] && !failing[0] {
        forall i | 0 <= i < |failing| ensures !failing[i] {
          if i > 0 { assert failing[1..][i - 1] == failing[i]; }
        }
      }
      if Selected(failing, messages) == [] {
        forall i | 1 <= i < |failing| ensures !failing[i] {
          assert failing[1..][i - 1] == failing[i];
        }
      }
    }
  }

  lemma OrderMessagesDistinct()
    ensures forall i, j :: 0 <= i < j < |OrderMessages| ==> OrderMessages[i] != OrderMessages[j]
  {
  }

  /** Which of the four order checks fail, in check order. */
  function OrderFailures(userAddress: Js.JsValue, tokenOut: Js.JsValue, amountIn: Js.JsValue, targetPrice: Js.JsValue,
                         isAddress: Js.JsValue -> bool, isPositive: Js.JsValue -> bool): (f: seq<bool>)
    ensures |f| == |OrderMessages|
    ensures f[0] <==> !Js.Truthy(userAddress) || !isAddress(userAddress)
    ensures f[1] <==> !Js.Truthy(tokenOut) || !isAddress(tokenOut)
    ensures f[2] <==> !Js.Truthy(amountIn) || !isPositive(amountIn)
    ensures f[3] <==> !Js.Truthy(targetPrice) || !isPositive(targetPrice)
  {
    [!Js.Truthy(userAddress) || !isAddress(userAddress),
     !Js.Truthy(tokenOut) || !isAddress(tokenOut),
     !Js.Truthy(amountIn) || !isPositive(amountIn),
     !Js.Truthy(targetPrice) || !isPositive(targetPrice)]
  }

  /** `validateOrder`: all four checks run, each failing one adds its
      message in turn; the request passes exactly when none failed,
      otherwise the answer is 400 with the collected messages. */
  method ValidateOrder(userAddress: Js.JsValue, tokenOut: Js.JsValue, amountIn: Js.JsValue, targetPrice: Js.JsValue,
                       isAddress: Js.JsValue -> bool, isPositive: Js.JsValue -> bool)
    returns (verdict: Verdict)
    ensures var errors := Selected(OrderFailures(userAddress, tokenOut, amountIn, targetPrice, isAddress, isPositive), OrderMessages);
      (verdict == Next <==> errors == []) &&
      (verdict != Next ==> verdict == Rejected(400, ValidationFailed, errors))
  {
    ghost var failing := OrderFailures(userAddress, tokenOut, amountIn, targetPrice, isAddress, isPositive);
    SelectedFour(failing, OrderMessages);
    var errors: seq<string> := [];
    if !Js.Truthy(userAddress) || !isAddress(userAddress) {
      errors := errors + [InvalidUserAddress];
    }
    assert errors == Step(failing, OrderMessages, 0);
    if !Js.Truthy(tokenOut) || !isAddress(tokenOut) {
      errors := errors + [InvalidTokenOut];
    }
    assert errors == Step(failing, OrderMessages, 0) + Step(failing, OrderMessages, 1);
    if !Js.Truthy(amountIn) || !isPositive(amountIn) {
      errors := errors + [InvalidAmountIn];
    }
    assert errors == Step(failing, OrderMessages, 0) + Step(failing, OrderMessages, 1) + Step(failing, OrderMessages, 2);
    if !Js.Truthy(targetPrice) || !isPositive(targetPrice) {
      errors := errors + [InvalidTargetPrice];
    }
    if |errors| > 0 {
      return Rejected(400, ValidationFailed, errors);
    }
    return Next;
  }

  /** The message check k contributes: its own when it fails, else none. */
  function Step(failing: seq<bool>, messages: seq<string>, k: nat): seq<string>
    requires |failing| == |messages| && k < |failing|
  {
    if failing[k] then [messages[k]] else []
  }

  /** Four checks report their messages in check order. */
  lemma SelectedFour(failing: seq<bool>, messages: seq<string>)
    requires |failing| == 4 && |messages| == 4
    ensures Selected(failing, messages) ==
      Step(failing, messages, 0) + Step(failing, messages, 1) + Step(failing, messages, 2) + Step(failing, messages, 3)
  {
    var f1, m1 := failing[1..], messages[1..];
    var f2, m2 := f1[1..], m1[1..];
    var f3, m3 := f2[1..], m2[1..];
    assert f3[1..] == [] && m3[1..] == [];
    assert Selected(f3, m3) == Step(failing, messages, 3) + Selected(f3[1..], m3[1..]);
    assert Selected(f2, m2) == Step(failing, messages, 2) + Selected(f3, m3);
    assert Selected(f1, m1) == Step(failing, messages, 1) + Selected(f2, m2);
  }

  /** Each order message is reported exactly when its own check fails. */
  lemma ValidateOrderReports(userAddress: Js.JsValue, tokenOut: Js.JsValue, amountIn: Js.JsValue, targetPrice: Js.JsValue,
                             isAddress: Js.JsValue -> bool, isPositive: Js.JsValue -> bool)
    ensures var errors := Selected(OrderFailures(userAddress, tokenOut, amountIn, targetPrice, isAddress, isPositive), OrderMessages);
      |errors| <= 4 &&
      (InvalidUserAddress in errors <==> !Js.Truthy(userAddress) || !isAddress(userAddress)) &&
      (InvalidTokenOut in errors <==> !Js.Truthy(tokenOut) || !isAddress(tokenOut)) &&
      (InvalidAmountIn in errors <==> !Js.Truthy(amountIn) || !isPositive(amountIn)) &&
      (InvalidTargetPrice in errors <==> !Js.Truthy(targetPrice) || !isPositive(targetPrice))
  {
    var f := OrderFailures(userAddress, tokenOut, amountIn, targetPrice, isAddress, isPositive);
    OrderMessagesDistinct();
    SelectedSpec(f, OrderMessages);
    assert OrderMessages[0] == InvalidUserAddress && OrderMessages[1] == InvalidTokenOut;
    assert OrderMessages[2] == InvalidAmountIn && OrderMessages[3] == InvalidTargetPrice;
  }

  /** `validateAddress`: 400 for a missing or malformed address
      parameter, otherwise the request passes. */
  function ValidateAddress(userAddress: Js.JsValue, isAddress: Js.JsValue -> bool): (v: Verdict)
    ensures v == Next <==> Js.Truthy(userAddress) && isAddress(userAddress)
    ensures v != Next ==> v == Rejected(400, InvalidAddressParameter, [])
  {
    if !Js.Truthy(userAddress) || !isAddress(userAddress) then Rejected(400, InvalidAddressParameter, [])
    else Next
  }

  /** The address parameter check and the order check on the user address
      agree: `validateAddress` passes an address exactly when
      `validateOrder` does not report it invalid. */
  lemma AddressChecksAgree(userAddress: Js.JsValue, tokenOut: Js.JsValue, amountIn: Js.JsValue, targetPrice: Js.JsValue,
                           isAddress: Js.JsValue -> bool, isPositive: Js.JsValue -> bool)
    ensures ValidateAddress(userAddress, isAddress) == Next <==>
      InvalidUserAddress !in Selected(OrderFailures(userAddress, tokenOut, amountIn, targetPrice, isAddress, isPositive), OrderMessages)
  {
    ValidateOrderReports(userAddress, tokenOut, amountIn, targetPrice, isAddress, isPositive);
  }

  /** `x < bound` where the left side is `parseInt(...)`: NaN compares
      false. */
  predicate Below(x: Option<int>, bound: int)
  {
    x.Some? && x.value < bound
  }

  predicate Above(x: Option<int>, bound: int)
  {
    x.Some? && x.value > bound
  }

  /** `validatePagination`: the page is checked before the limit; an
      absent (falsy) parameter is not checked. `isNumeric` is
      `!isNaN(...)`. */
  function ValidatePagination(page: Js.JsValue, limit: Js.JsValue, isNumeric: Js.JsValue -> bool): (v: Verdict)
    ensures v == Next || v == Rejected(400, InvalidPage, []) || v == Rejected(400, InvalidLimit, [])
    ensures v == Rejected(400, InvalidPage, []) <==>
      Js.Truthy(page) && (!isNumeric(page) || Below(Js.ParseInt(page), 1))
    ensures v == Rejected(400, InvalidLimit, []) <==>
      !(Js.Truthy(page) && (!isNumeric(page) || Below(Js.ParseInt(page), 1))) &&
      Js.Truthy(limit) && (!isNumeric(limit) || Below(Js.ParseInt(limit), 1) || Above(Js.ParseInt(limit), 100))
  {
    if Js.Truthy(page) && (!isNumeric(page) || Below(Js.ParseInt(page), 1)) then
      Rejected(400, InvalidPage, [])
    else if Js.Truthy(limit) && (!isNumeric(limit) || Below(Js.ParseInt(limit), 1) || Above(Js.ParseInt(limit), 100)) then
      Rejected(400, InvalidLimit, [])
    else Next
  }

  /** Absent paging parameters are accepted. */
  lemma PaginationDefaults(isNumeric: Js.JsValue -> bool)
    ensures ValidatePagination(Js.Undefined, Js.Undefined, isNumeric) == Next
    ensures ValidatePagination(Js.Str(""), Js.Str(""), isNumeric) == Next
  {
  }

  /** For numeric parameters that parse to integers p and l, the request
      passes exactly when p >= 1 and 1 <= l <= 100; a bad page is reported
      even when the limit is bad too. */
  lemma PaginationRange(page: Js.JsValue, limit: Js.JsValue, isNumeric: Js.JsValue -> bool)
    requires Js.Truthy(page) && Js.Truthy(limit) && isNumeric(page) && isNumeric(limit)
    requires Js.ParseInt(page).Some? && Js.ParseInt(limit).Some?
    ensures ValidatePagination(page, limit, isNumeric) == Next <==>
      Js.ParseInt(page).value >= 1 && 1 <= Js.ParseInt(limit).value <= 100
    ensures Js.ParseInt(page).value < 1 ==> ValidatePagination(page, limit, isNumeric) == Rejected(400, InvalidPage, [])
  {
  }

  /** A query string holding the decimal rendering of page and limit
      passes exactly when page >= 1 and 1 <= limit <= 100. */
  lemma PaginationDecimalStrings(page: int, limit: int, isNumeric: Js.JsValue -> bool)
    requires isNumeric(Js.Str(Text.SignedDecimal(page))) && isNumeric(Js.Str(Text.SignedDecimal(limit)))
    ensures ValidatePagination(Js.Str(Text.SignedDecimal(page)), Js.Str(Text.SignedDecimal(limit)), isNumeric) == Next <==>
      page >= 1 && 1 <= limit <= 100
  {
    DecimalParameter(page);
    DecimalParameter(limit);
    PaginationRange(Js.Str(Text.SignedDecimal(page)), Js.Str(Text.SignedDecimal(limit)), isNumeric);
  }

  /** A query parameter holding the decimal rendering of n is present and
      `parseInt` reads it as n. */
  lemma DecimalParameter(n: int)
    ensures Js.Truthy(Js.Str(Text.SignedDecimal(n)))
    ensures Js.ParseInt(Js.Str(Text.SignedDecimal(n))) == Some(n)
  {
    Js.ParseIntOfDecimal(n);
    Text.NumeralShape(if n < 0 then -n else n, 10);
  }

  /** A limit written with leading white space or a sign is read the way
      `parseInt` reads it: a '+' keeps the number (so " +500" is above 100
      and refused) and a '-' makes it negative (always refused). */
  lemma PaddedSignedLimit(w: string, c: char, m: nat, isNumeric: Js.JsValue -> bool)
    requires forall i :: 0 <= i < |w| ==> Text.IsSpace(w[i])
    requires c == '-' || c == '+'
    requires isNumeric(Js.Str(w + [c] + Text.Numeral(m, 10)))
    ensures ValidatePagination(Js.Undefined, Js.Str(w + [c] + Text.Numeral(m, 10)), isNumeric) == Next <==>
      c == '+' && 1 <= m <= 100
  {
    var limit := Js.Str(w + [c] + Text.Numeral(m, 10));
    assert Js.ParseInt(limit) == Some(Text.Signed(m, c == '-')) by {
      Js.ParseIntSignedDecimal(w, c, m);
    }
    LimitAlone(limit, isNumeric);
  }

  /** With no page parameter, a numeric limit passes exactly when it reads
      as 1 to 100. */
  lemma LimitAlone(limit: Js.JsValue, isNumeric: Js.JsValue -> bool)
    requires limit.Str? && limit.s != "" && isNumeric(limit) && Js.ParseInt(limit).Some?
    ensures ValidatePagination(Js.Undefined, limit, isNumeric) == Next <==> 1 <= Js.ParseInt(limit).value <= 100
  {
  }
}
