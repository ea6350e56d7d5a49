/** Liquidity bookkeeping of the REST backend: liquidity positions keyed by
    NFT token id, pool records keyed by (token0, token1, fee), and the
    handlers that record additions and removals. Amounts are stored as
    decimal strings and updated with exact integer (BigInt) arithmetic.
    Request fields are JavaScript values; the token price collection is a
    map from token address to price. */
module Liquidity {
  import opened Wrappers
  import Text
  import Js

  /** A stored liquidity position. The schema has no `status` path, so
      the status the handlers set is dropped by the strict schema. */
  datatype Position = Position(
    userAddress: string, tokenId: real, token0: string, token1: string,
    fee: real, tickLower: real, tickUpper: real,
    liquidity: string, amount0: string, amount1: string,
    txHash: Option<string>)

  datatype PoolKey = PoolKey(token0: string, token1: string, fee: int)

  datatype Pool = Pool(liquidity: string, tick: int, sqrtPriceX96: string)

  /** The increment `updatePoolInfo` adds to a pool's liquidity. */
  const PoolIncrement: int := 1000

  /** `ethers.parseUnits("1000", 18)`: 1000 tokens of 18 decimals. */
  const MockLiquidityUnits: int := 1000 * 1000000000000000000

  /** The same amount as a decimal string, as the handler answers it. */
  const MockLiquidity: string := Text.SignedDecimal(MockLiquidityUnits)

  const MissingPoolFields: string := "Thiếu thông tin token hoặc fee"
  const PoolNotFound: string := "Không tìm thấy thông tin pool"
  const MissingFields: string := "Thiếu thông tin cần thiết"
  const MissingTransactionFields: string := "Thiếu thông tin giao dịch"
  const PositionNotFound: string := "Không tìm thấy vị trí thanh khoản"
  const SaveFailed: string := "Không thể lưu thông tin giao dịch"

  /** What a String path declared with `trim` and `lowercase` stores, and
      what a query on such a path compares with: no white space at either
      end and no upper-case letter. */
  function Normalized(s: string): (r: string)
    ensures Text.Trim(r) == r && Text.ToLower(r) == r
    ensures |r| <= |s|
  {
    var t := Text.Trim(s);
    Text.ToLowerIdempotent(t);
    var r := Text.ToLower(t);
    assert r == "" || (!Text.IsSpace(r[0]) && !Text.IsSpace(r[|r| - 1]));
    Text.TrimUnpadded(r);
    r
  }

  /** The pool a lookup by `token0.toLowerCase()`, `token1.toLowerCase()`
      and the already parsed fee (`parseInt(fee)`, None for NaN) selects.
      A token that is not a string makes the case-mapping call throw, and
      a NaN fee cannot be cast into the fee path; both are None. */
  function PoolKeyOf(token0: Js.JsValue, token1: Js.JsValue, fee: Option<int>): (k: Option<PoolKey>)
    ensures k.Some? <==> token0.Str? && token1.Str? && fee.Some?
  {
    if token0.Str? && token1.Str? && fee.Some? then
      Some(PoolKey(Normalized(token0.s), Normalized(token1.s), fee.value))
    else None
  }

  /** Two lookups select the same pool exactly when their tokens agree up
      to case and surrounding white space and their fees parse equal. */
  lemma PoolKeysAgree(a0: string, a1: string, af: int, b0: string, b1: string, bf: int)
    ensures PoolKeyOf(Js.Str(a0), Js.Str(a1), Some(af)) == PoolKeyOf(Js.Str(b0), Js.Str(b1), Some(bf)) <==>
            Normalized(a0) == Normalized(b0) && Normalized(a1) == Normalized(b1) && af == bf
  {
  }

  /** A lookup by the stored (already normalized) tokens selects the same
      pool as by the stored text itself: normalizing twice changes
      nothing. */
  lemma NormalizedIdempotent(s: string)
    ensures Normalized(Normalized(s)) == Normalized(s)
  {
  }

  /** Lowering the text first changes nothing about what a `trim` and
      `lowercase` path compares with, so a checksummed address and its
      lower-case form select the same document. */
  lemma NormalizedIgnoresCase(s: string)
    ensures Normalized(Text.ToLower(s)) == Normalized(s)
  {
    Text.TrimLower(s);
    Text.ToLowerIdempotent(Text.Trim(s));
  }

  /** The price `TokenPrice.findOne({ tokenAddress: token })` answers: the
      query value goes through the path's `trim` and `lowercase` setters,
      and a missing document gives 0. */
  function PriceOf(prices: map<string, real>, token: string): real
  {
    if Normalized(token) in prices then prices[Normalized(token)] else 0.0
  }

  /** Two token texts that differ only in ASCII case, or that normalize
      alike, are given the same price; a price stored under a normalized
      address is found by every text that normalizes to it. */
  lemma PriceIgnoresCase(prices: map<string, real>, a: string, b: string)
    ensures PriceOf(prices, Text.ToLower(a)) == PriceOf(prices, a)
    ensures Normalized(a) == Normalized(b) ==> PriceOf(prices, a) == PriceOf(prices, b)
    ensures Normalized(a) in prices ==> PriceOf(prices, a) == prices[Normalized(a)]
  {
    NormalizedIgnoresCase(a);
  }

  /** The liquidity `updatePoolInfo` starts from: the found pool's stored
      liquidity, or 0 for the pool it creates. None when that text does not
      convert with `BigInt`, or when the pool to create (whose "0" reads
      as 0, see PoolStartsEmpty) has an empty token,
      which fails the path's `required` check on save. */
  function StartingLiquidity(pools: map<PoolKey, Pool>, key: PoolKey): (r: Option<int>)
    ensures key in pools ==> r == Text.ParseBigInt(pools[key].liquidity)
    ensures key !in pools ==> (r.Some? <==> key.token0 != "" && key.token1 != "")
    ensures key !in pools && r.Some? ==> r.value == 0
  {
    if key in pools then Text.ParseBigInt(pools[key].liquidity)
    else if key.token0 == "" || key.token1 == "" then None
    else Some(0)
  }

  /** The liquidity text a created pool starts with reads as 0. */
  lemma PoolStartsEmpty(s: string)
    requires s == "0"
    ensures Text.ParseBigInt(s) == Some(0)
  {
    Text.SignedDecimalRoundTrip(0);
    assert Text.SignedDecimal(0) == s;
  }

  /** The pools after one `updatePoolInfo`: every other pool is kept, and
      the selected one (found or created) is replaced by BumpedPool, which
      reads as exactly 1000 more than before with tick 0 and price "0". An
      error (no key, an unreadable liquidity, a pool that cannot be
      created) is caught and changes nothing. */
  function PoolBumped(pools: map<PoolKey, Pool>, key: Option<PoolKey>): (r: map<PoolKey, Pool>)
    ensures key.None? || StartingLiquidity(pools, key.value).None? ==> r == pools
    ensures key.Some? && StartingLiquidity(pools, key.value).Some? ==>
      r == pools[key.value := BumpedPool(StartingLiquidity(pools, key.value).value)]
  {
    if key.None? then pools
    else
      var before := StartingLiquidity(pools, key.value);
      if before.None? then pools else pools[key.value := BumpedPool(before.value)]
  }

  /** What one successful `updatePoolInfo` does to the pool collection: the
      selected pool is present afterwards (found or newly created), it
      holds BumpedPool of its starting liquidity, and every other pool is
      untouched. */
  lemma PoolBumpedEffect(pools: map<PoolKey, Pool>, key: PoolKey)
    requires StartingLiquidity(pools, key).Some?
    ensures PoolBumped(pools, Some(key)).Keys == pools.Keys + {key}
    ensures forall k :: k in pools && k != key ==> PoolBumped(pools, Some(key))[k] == pools[k]
    ensures PoolBumped(pools, Some(key))[key] == BumpedPool(StartingLiquidity(pools, key).value)
  {
  }

  /** The selected pool's liquidity reads as exactly 1000 more than before,
      and as 1000 for a pool created by the call. */
  lemma PoolBumpedLiquidity(pools: map<PoolKey, Pool>, key: PoolKey)
    requires StartingLiquidity(pools, key).Some?
    ensures key !in pools ==> Text.ParseBigInt(PoolBumped(pools, Some(key))[key].liquidity) == Some(PoolIncrement)
    ensures key in pools ==> Text.ParseBigInt(PoolBumped(pools, Some(key))[key].liquidity) ==
                             Some(Text.ParseBigInt(pools[key].liquidity).value + PoolIncrement)
  {
    PoolBumpedEffect(pools, key);
  }

  /** The pool record `updatePoolInfo` saves over one whose liquidity read
      as `before`. */
  function BumpedPool(before: int): (p: Pool)
    ensures p.tick == 0 && p.sqrtPriceX96 == "0"
    ensures Text.ParseBigInt(p.liquidity) == Some(before + PoolIncrement)
  {
    Text.SignedDecimalRoundTrip(before + PoolIncrement);
    Pool(Text.SignedDecimal(before + PoolIncrement), 0, "0")
  }

  datatype PoolInfo = PoolInfo(pool: Pool, token0Price: real, token1Price: real)

  datatype Reply<T> = Ok(status: nat, data: T) | Err(status: nat, message: string)

  /** The amounts `calculateLiquidity` answers with. */
  datatype LiquidityQuote = LiquidityQuote(liquidity: string, amount0: Js.JsValue, amount1: Js.JsValue)

  /** `calculateLiquidity`: 400 unless all seven fields are truthy (so a fee
      or tick of 0 counts as missing); otherwise it echoes the desired
      amounts and a fixed liquidity of 1000 * 10^18. */
  function CalculateLiquidity(token0: Js.JsValue, token1: Js.JsValue, fee: Js.JsValue,
                              amount0Desired: Js.JsValue, amount1Desired: Js.JsValue,
                              tickLower: Js.JsValue, tickUpper: Js.JsValue): (r: Reply<LiquidityQuote>)
    ensures r.Err? <==> !(Js.Truthy(token0) && Js.Truthy(token1) && Js.Truthy(fee) &&
                          Js.Truthy(amount0Desired) && Js.Truthy(amount1Desired) &&
                          Js.Truthy(tickLower) && Js.Truthy(tickUpper))
    ensures r.Err? ==> r == Err(400, MissingFields)
    ensures r.Ok? ==> r.status == 200 && r.data.amount0 == amount0Desired && r.data.amount1 == amount1Desired &&
                      Text.ParseBigInt(r.data.liquidity) == Some(MockLiquidityUnits)
  {
    if !Js.Truthy(token0) || !Js.Truthy(token1) || !Js.Truthy(fee) || !Js.Truthy(amount0Desired) ||
       !Js.Truthy(amount1Desired) || !Js.Truthy(tickLower) || !Js.Truthy(tickUpper) then
      Err(400, MissingFields)
    else
      Text.SignedDecimalRoundTrip(MockLiquidityUnits);
      Ok(200, LiquidityQuote(MockLiquidity, amount0Desired, amount1Desired))
  }

  /** `x - y` on two BigInt-convertible values, printed back. */
  function Subtract(stored: string, removed: Js.JsValue): (r: Option<string>)
    ensures r.Some? <==> Text.ParseBigInt(stored).Some? && Js.ToBigInt(removed).Some?
    ensures r.Some? ==> IsDifference(r.value, stored, removed)
  {
    var a, b := Text.ParseBigInt(stored), Js.ToBigInt(removed);
    if a.Some? && b.Some? then
      DifferenceReadsBack(stored, removed);
      Some(Text.SignedDecimal(a.value - b.value))
    else None
  }

  lemma DifferenceReadsBack(stored: string, removed: Js.JsValue)
    requires Text.ParseBigInt(stored).Some? && Js.ToBigInt(removed).Some?
    ensures IsDifference(Text.SignedDecimal(Text.ParseBigInt(stored).value - Js.ToBigInt(removed).value), stored, removed)
  {
    Text.SignedDecimalRoundTrip(Text.ParseBigInt(stored).value - Js.ToBigInt(removed).value);
  }

  /** `result` reads as the exact integer difference of `stored` and
      `removed`, both of which convert. */
  predicate IsDifference(result: string, stored: string, removed: Js.JsValue)
  {
    Text.ParseBigInt(stored).Some? && Js.ToBigInt(removed).Some? &&
    Text.ParseBigInt(result) == Some(Text.ParseBigInt(stored).value - Js.ToBigInt(removed).value)
  }

  /** Removing more liquidity than a position holds is not refused: a
      stored decimal amount minus a larger decimal amount is accepted and
      stored as the negative difference. */
  lemma RemovalCanGoNegative(stored: nat, removed: nat)
    requires stored < removed
    ensures Subtract(Text.SignedDecimal(stored), Js.Str(Text.SignedDecimal(removed))).Some?
    ensures Text.ParseBigInt(Subtract(Text.SignedDecimal(stored), Js.Str(Text.SignedDecimal(removed))).value)
            == Some(stored - removed)
    ensures stored - removed < 0
  {
    Text.SignedDecimalRoundTrip(stored);
    Text.SignedDecimalRoundTrip(removed);
  }

  class LiquidityBook {
    var positions: map<real, Position>
    var pools: map<PoolKey, Pool>

    /** Every position is stored under its own token id. */
    predicate Valid()
      reads this
    {
      forall id :: id in positions ==> positions[id].tokenId == id
    }

    constructor ()
      ensures positions == map[] && pools == map[] && Valid()
    {
      positions := map[];
      pools := map[];
    }

    /** `getPoolInfo`: 400 unless token0, token1 and fee are truthy; 404
        when no pool has the normalized tokens and parsed fee; otherwise the
        pool with the price recorded under each of its own (normalized)
        tokens, or 0 when none is. */
    function GetPoolInfo(token0: Js.JsValue, token1: Js.JsValue, fee: Js.JsValue,
                         prices: map<string, real>): (r: Reply<PoolInfo>)
      reads this
      ensures !(Js.Truthy(token0) && Js.Truthy(token1) && Js.Truthy(fee)) <==> r == Err(400, MissingPoolFields)
      ensures r == Err(404, PoolNotFound) <==>
        Js.Truthy(token0) && Js.Truthy(token1) && Js.Truthy(fee) &&
        PoolKeyOf(token0, token1, Js.ParseInt(fee)).Some? && PoolKeyOf(token0, token1, Js.ParseInt(fee)).value !in pools
      ensures r.Ok? ==>
        PoolKeyOf(token0, token1, Js.ParseInt(fee)).Some? && PoolKeyOf(token0, token1, Js.ParseInt(fee)).value in pools &&
        r.status == 200 && r.data.pool == pools[PoolKeyOf(token0, token1, Js.ParseInt(fee)).value] &&
        r.data.token0Price == PriceOf(prices, PoolKeyOf(token0, token1, Js.ParseInt(fee)).value.token0) &&
        r.data.token1Price == PriceOf(prices, PoolKeyOf(token0, token1, Js.ParseInt(fee)).value.token1)
    {
      if !Js.Truthy(token0) || !Js.Truthy(token1) || !Js.Truthy(fee) then Err(400, MissingPoolFields)
      else
        match PoolKeyOf(token0, token1, Js.ParseInt(fee))
        case None => Err(500, "Không thể lấy thông tin pool")
        case Some(key) =>
          if key !in pools then Err(404, PoolNotFound)
          else
            NormalizedIdempotent(token0.s);
            NormalizedIdempotent(token1.s);
            Ok(200, PoolInfo(pools[key], PriceOf(prices, token0.s), PriceOf(prices, token1.s)))
    }

    /** `updatePoolInfo(token0, token1, fee)`, given `parseInt(fee)`: finds
        the pool for the tokens and fee, creating it with zero liquidity,
        tick 0 and price "0" when absent, then adds exactly 1000 to its
        liquidity and resets tick and price. Any error is caught and leaves
        the pools unchanged. */
    method UpdatePoolInfo(token0: Js.JsValue, token1: Js.JsValue, fee: Option<int>)
      modifies this
      ensures positions == old(positions)
      ensures pools == PoolBumped(old(pools), PoolKeyOf(token0, token1, fee))
    {
      var key := PoolKeyOf(token0, token1, fee);
      if key.Some? {
        UpdatePool(key.value);
      }
    }

    /** The steps of `updatePoolInfo` once the lookup key is built: find
        the pool, or create it with liquidity "0", tick 0 and price "0";
        add 1000 to the BigInt value of its liquidity; reset tick and
        price; save. A conversion or save error changes nothing. */
    method UpdatePool(key: PoolKey)
      modifies this
      ensures positions == old(positions)
      ensures pools == PoolBumped(old(pools), Some(key))
    {
      var found := key in pools;
      var pool := if found then pools[key] else Pool("0", 0, "0");
      if !found {
        PoolStartsEmpty(pool.liquidity);
      }
      var before := Text.ParseBigInt(pool.liquidity);
      if before.Some? && (found || (key.token0 != "" && key.token1 != "")) {
        pools := pools[key := BumpedPool(before.value)];
      }
    }

    /** `saveAddLiquidityTransaction`: 400 unless all ten required fields
        are truthy (a zero fee or tick is refused as missing). Otherwise a
        position is saved with the schema's casts; a cast or validation
        error or an already used tokenId is a 500 that stores nothing.
        After the save the pool of the request's tokens and fee is updated.
        The status argument reaches no stored field. */
    method SaveAddLiquidity(userAddress: Js.JsValue, tokenId: Js.JsValue, token0: Js.JsValue, token1: Js.JsValue,
                            fee: Js.JsValue, tickLower: Js.JsValue, tickUpper: Js.JsValue,
                            liquidity: Js.JsValue, amount0: Js.JsValue, amount1: Js.JsValue,
                            txHash: Js.JsValue, status: Js.JsValue)
      returns (reply: Reply<Position>)
      requires Valid()
      modifies this
      ensures Valid()
      ensures reply == Err(400, MissingTransactionFields) <==>
        !(Js.Truthy(userAddress) && Js.Truthy(tokenId) && Js.Truthy(token0) && Js.Truthy(token1) &&
          Js.Truthy(fee) && Js.Truthy(tickLower) && Js.Truthy(tickUpper) && Js.Truthy(liquidity) &&
          Js.Truthy(amount0) && Js.Truthy(amount1))
      ensures reply.Err? ==> positions == old(positions) && pools == old(pools)
      ensures reply.Ok? ==>
        reply.status == 201 &&
        NewPosition(userAddress, tokenId, token0, token1, fee, tickLower, tickUpper,
                    liquidity, amount0, amount1, txHash) == Some(reply.data) &&
        reply.data.tokenId !in old(positions) &&
        positions == old(positions)[reply.data.tokenId := reply.data] &&
        pools == PoolBumped(old(pools), PoolKeyOf(token0, token1, Js.ParseInt(fee)))
    {
      if !Js.Truthy(userAddress) || !Js.Truthy(tokenId) || !Js.Truthy(token0) || !Js.Truthy(token1) ||
         !Js.Truthy(fee) || !Js.Truthy(tickLower) || !Js.Truthy(tickUpper) || !Js.Truthy(liquidity) ||
         !Js.Truthy(amount0) || !Js.Truthy(amount1) {
        return Err(400, MissingTransactionFields);
      }
      var position := NewPosition(userAddress, tokenId, token0, token1, fee, tickLower, tickUpper,
                                  liquidity, amount0, amount1, txHash);
      reply := Insert(position, token0, token1, Js.ParseInt(fee));
    }

    /** The save step of an add: the document is stored under its unused
        token id, then the pool is updated. A document that failed to cast
        or a used token id is a 500 that stores nothing. */
    method Insert(position: Option<Position>, token0: Js.JsValue, token1: Js.JsValue, fee: Option<int>)
      returns (reply: Reply<Position>)
      requires Valid()
      modifies this
      ensures Valid()
      ensures reply.Err? <==> position.None? || position.value.tokenId in old(positions)
      ensures reply.Err? ==> reply == Err(500, SaveFailed) && positions == old(positions) && pools == old(pools)
      ensures reply.Ok? ==>
        reply.status == 201 && position == Some(reply.data) &&
        positions == old(positions)[reply.data.tokenId := reply.data] &&
        pools == PoolBumped(old(pools), PoolKeyOf(token0, token1, fee))
    {
      if position.None? || position.value.tokenId in positions {
        return Err(500, SaveFailed);
      }
      positions := positions[position.value.tokenId := position.value];
      UpdatePoolInfo(token0, token1, fee);
      reply := Ok(201, position.value);
    }

    /** `saveRemoveLiquidityTransaction`: 400 unless tokenId and liquidity
        are truthy; 404 when no position has that tokenId. Otherwise the
        removed liquidity is subtracted exactly, with no lower bound; each
        amount is subtracted only when given; txHash is replaced only when
        given; nothing else changes, and the status argument reaches no
        stored field. An unconvertible number is a 500 that stores nothing.
        After the save the pool of the stored tokens and fee is updated. */
    method SaveRemoveLiquidity(tokenId: Js.JsValue, liquidity: Js.JsValue, amount0: Js.JsValue,
                               amount1: Js.JsValue, txHash: Js.JsValue, status: Js.JsValue)
      returns (reply: Reply<Position>)
      requires Valid()
      modifies this
      ensures Valid()
      ensures reply == Err(400, MissingTransactionFields) <==> !(Js.Truthy(tokenId) && Js.Truthy(liquidity))
      ensures reply == Err(404, PositionNotFound) <==>
        Js.Truthy(tokenId) && Js.Truthy(liquidity) && Js.ToNumber(tokenId).Some? && Js.ToNumber(tokenId).value !in old(positions)
      ensures reply.Err? ==> positions == old(positions) && pools == old(pools)
      ensures reply.Ok? ==>
        Js.ToNumber(tokenId).Some? && Js.ToNumber(tokenId).value in old(positions) &&
        var id := Js.ToNumber(tokenId).value;
        Removed(old(positions)[id], liquidity, amount0, amount1, txHash) == Some(reply.data) &&
        positions == old(positions)[id := reply.data] && reply.status == 200 &&
        pools == PoolBumped(old(pools), PoolKeyOf(Js.Str(reply.data.token0), Js.Str(reply.data.token1),
                                                  Some(Js.NumberParseInt(reply.data.fee))))
    {
      if !Js.Truthy(tokenId) || !Js.Truthy(liquidity) {
        return Err(400, MissingTransactionFields);
      }
      var id := Js.ToNumber(tokenId);
      if id.None? {
        return Err(500, SaveFailed);
      }
      if id.value !in positions {
        return Err(404, PositionNotFound);
      }
      reply := Replace(id.value, Removed(positions[id.value], liquidity, amount0, amount1, txHash));
    }

    /** The save step of a removal: the updated document replaces the one
        under `id`, then the pool of its stored tokens and fee is updated.
        A failed conversion is a 500 that stores nothing. */
    method Replace(id: real, updated: Option<Position>) returns (reply: Reply<Position>)
      requires Valid() && id in positions
      requires updated.Some? ==> updated.value.tokenId == id
      modifies this
      ensures Valid()
      ensures reply.Err? <==> updated.None?
      ensures reply.Err? ==> reply == Err(500, SaveFailed) && positions == old(positions) && pools == old(pools)
      ensures reply.Ok? ==>
        reply.status == 200 && updated == Some(reply.data) &&
        positions == old(positions)[id := reply.data] &&
        pools == PoolBumped(old(pools), PoolKeyOf(Js.Str(reply.data.token0), Js.Str(reply.data.token1),
                                                  Some(Js.NumberParseInt(reply.data.fee))))
    {
      if updated.None? {
        return Err(500, SaveFailed);
      }
      positions := positions[id := updated.value];
      UpdatePoolInfo(Js.Str(updated.value.token0), Js.Str(updated.value.token1),
                     Some(Js.NumberParseInt(updated.value.fee)));
      reply := Ok(200, updated.value);
    }
  }

  /** The position document built from an add request, with the schema's
      casts: addresses trimmed and lowercased, numbers cast with `Number`,
      amounts as strings, txHash trimmed. None when a numeric field cannot
      be cast or an address is empty after trimming (its `required` check
      fails). */
  function NewPosition(userAddress: Js.JsValue, tokenId: Js.JsValue, token0: Js.JsValue, token1: Js.JsValue,
                       fee: Js.JsValue, tickLower: Js.JsValue, tickUpper: Js.JsValue,
                       liquidity: Js.JsValue, amount0: Js.JsValue, amount1: Js.JsValue,
                       txHash: Js.JsValue): (p: Option<Position>)
    ensures p.Some? <==> Js.ToNumber(tokenId).Some? && Js.ToNumber(fee).Some? &&
                         Js.ToNumber(tickLower).Some? && Js.ToNumber(tickUpper).Some? &&
                         Normalized(Js.ToText(userAddress)) != "" &&
                         Normalized(Js.ToText(token0)) != "" && Normalized(Js.ToText(token1)) != ""
    ensures p.Some? ==> var q := p.value;
      Normalized(q.userAddress) == q.userAddress && Normalized(q.token0) == q.token0 && Normalized(q.token1) == q.token1 &&
      q.userAddress == Normalized(Js.ToText(userAddress)) &&
      q.token0 == Normalized(Js.ToText(token0)) && q.token1 == Normalized(Js.ToText(token1)) &&
      q.tokenId == Js.ToNumber(tokenId).value && q.fee == Js.ToNumber(fee).value &&
      q.tickLower == Js.ToNumber(tickLower).value && q.tickUpper == Js.ToNumber(tickUpper).value &&
      q.liquidity == Js.ToText(liquidity) && q.amount0 == Js.ToText(amount0) && q.amount1 == Js.ToText(amount1) &&
      (txHash.Undefined? || txHash.Null? ==> q.txHash.None?) &&
      (!(txHash.Undefined? || txHash.Null?) ==> q.txHash == Some(Text.Trim(Js.ToText(txHash))))
  {
    var user, t0, t1 := Normalized(Js.ToText(userAddress)), Normalized(Js.ToText(token0)), Normalized(Js.ToText(token1));
    var id, f, lo, hi := Js.ToNumber(tokenId), Js.ToNumber(fee), Js.ToNumber(tickLower), Js.ToNumber(tickUpper);
    if id.None? || f.None? || lo.None? || hi.None? || user == "" || t0 == "" || t1 == "" then None
    else
      assert Normalized(user) == user && Normalized(t0) == t0 && Normalized(t1) == t1 by {
        NormalizedIdempotent(Js.ToText(userAddress));
        NormalizedIdempotent(Js.ToText(token0));
        NormalizedIdempotent(Js.ToText(token1));
      }
      Some(Position(user, id.value, t0, t1, f.value, lo.value, hi.value,
                    Js.ToText(liquidity), Js.ToText(amount0), Js.ToText(amount1),
                    if txHash.Undefined? || txHash.Null? then None else Some(Text.Trim(Js.ToText(txHash)))))
  }

  /** The position after a removal. It changes only the fields it is
      given: the liquidity is the old one minus the removed amount, exactly
      and with no lower bound; each amount moves by exactly the given
      amount; txHash is replaced (trimmed) only when given; identity,
      tokens, fee and ticks are kept. None when a BigInt conversion
      throws. */
  function Removed(p: Position, liquidity: Js.JsValue, amount0: Js.JsValue, amount1: Js.JsValue,
                   txHash: Js.JsValue): (r: Option<Position>)
    ensures r.Some? <==> Subtract(p.liquidity, liquidity).Some? &&
                         (Js.Truthy(amount0) ==> Subtract(p.amount0, amount0).Some?) &&
                         (Js.Truthy(amount1) ==> Subtract(p.amount1, amount1).Some?)
    ensures r.Some? ==> var q := r.value;
      q.tokenId == p.tokenId && q.userAddress == p.userAddress &&
      q.token0 == p.token0 && q.token1 == p.token1 && q.fee == p.fee &&
      q.tickLower == p.tickLower && q.tickUpper == p.tickUpper &&
      IsDifference(q.liquidity, p.liquidity, liquidity) &&
      (Js.Truthy(amount0) ==> IsDifference(q.amount0, p.amount0, amount0)) &&
      (!Js.Truthy(amount0) ==> q.amount0 == p.amount0) &&
      (Js.Truthy(amount1) ==> IsDifference(q.amount1, p.amount1, amount1)) &&
      (!Js.Truthy(amount1) ==> q.amount1 == p.amount1) &&
      (q.txHash == if Js.Truthy(txHash) then Some(Text.Trim(Js.ToText(txHash))) else p.txHash)
  {
    var l := Subtract(p.liquidity, liquidity);
    var a0 := SubtractIfGiven(p.amount0, amount0);
    var a1 := SubtractIfGiven(p.amount1, amount1);
    if l.None? || a0.None? || a1.None? then None
    else
      Some(p.(liquidity := l.value, amount0 := a0.value, amount1 := a1.value,
              txHash := if Js.Truthy(txHash) then Some(Text.Trim(Js.ToText(txHash))) else p.txHash))
  }

  /** An optional amount of a removal: subtracted when given, kept when
      not. */
  function SubtractIfGiven(stored: string, removed: Js.JsValue): Option<string>
  {
    if Js.Truthy(removed) then Subtract(stored, removed) else Some(stored)
  }

  /** For a numeric fee, removing from a position updates the same pool
      its addition updated: the add path keys the pool by the request's
      tokens and `parseInt(fee)`, the remove path by the stored
      (normalized) tokens and `parseInt` of the stored fee, which a
      removal keeps. */
  lemma SamePoolOnRemoval(userAddress: Js.JsValue, tokenId: Js.JsValue, token0: string, token1: string, fee: int,
                          tickLower: Js.JsValue, tickUpper: Js.JsValue, liquidity: Js.JsValue,
                          amount0: Js.JsValue, amount1: Js.JsValue, txHash: Js.JsValue, p: Position)
    requires NewPosition(userAddress, tokenId, Js.Str(token0), Js.Str(token1), Js.Num(fee), tickLower, tickUpper,
                         liquidity, amount0, amount1, txHash) == Some(p)
    ensures PoolKeyOf(Js.Str(p.token0), Js.Str(p.token1), Some(Js.NumberParseInt(p.fee))) ==
            PoolKeyOf(Js.Str(token0), Js.Str(token1), Js.ParseInt(Js.Num(fee)))
  {
    assert p.token0 == Normalized(token0) && p.token1 == Normalized(token1) && p.fee == fee as real;
    Js.NumberParseIntOfInteger(fee);
    NormalizedIdempotent(token0);
    NormalizedIdempotent(token1);
    PoolKeyOfText(p.token0, p.token1, fee);
    PoolKeyOfText(token0, token1, fee);
  }

  /** A lookup by two strings and a parsed fee selects the pool of their
      normalized forms. */
  lemma PoolKeyOfText(token0: string, token1: string, fee: int)
    ensures PoolKeyOf(Js.Str(token0), Js.Str(token1), Some(fee)) == Some(PoolKey(Normalized(token0), Normalized(token1), fee))
  {
  }
}
