/** Authentication middleware: bearer-token parsing and the wallet
    ownership check. Token verification is a library call and arrives as a
    function from the token to its outcome; the user and wallet tables are
    those of the registry. */
module AuthMiddleware {
  import opened Wrappers
  import Text
  import AuthRegistry

  /** `s.split(c)`: the maximal pieces between occurrences of `c`. */
  function Split(s: string, c: char): (r: seq<string>)
    ensures |r| >= 1
    ensures forall i :: 0 <= i < |r| ==> c !in r[i]
    decreases |s|
  {
    if |s| == 0 then [""]
    else if s[0] == c then [""] + Split(s[1..], c)
    else
      var rest := Split(s[1..], c);
      [[s[0]] + rest[0]] + rest[1..]
  }

  /** `parts.join(c)`. */
  function Join(parts: seq<string>, c: char): string
    requires |parts| >= 1
    decreases |parts|
  {
    if |parts| == 1 then parts[0] else parts[0] + [c] + Join(parts[1..], c)
  }

  /** Splitting and joining again gives the header back. */
  lemma {:induction false} SplitJoin(s: string, c: char)
    ensures Join(Split(s, c), c) == s
    decreases |s|
  {
    if |s| > 0 {
      SplitJoin(s[1..], c);
      var rest := Split(s[1..], c);
      if s[0] == c {
        assert Split(s, c)[1..] == rest;
        assert s == [c] + s[1..];
      } else {
        var r := Split(s, c);
        assert r[0] == [s[0]] + rest[0];
        if |rest| == 1 {
          assert s == [s[0]] + s[1..];
        } else {
          assert r[1..] == rest[1..];
          assert Join(rest, c) == rest[0] + [c] + Join(rest[1..], c);
          assert s == [s[0]] + s[1..];
        }
      }
    }
  }

  /** Splitting a string that starts with a field and the separator gives
      that field first. */
  lemma {:induction false} SplitAfterPrefix(prefix: string, s: string, c: char)
    requires c !in prefix
    ensures Split(prefix + [c] + s, c) == [prefix] + Split(s, c)
    decreases |prefix|
  {
    if |prefix| == 0 {
      assert prefix + [c] + s == [c] + s;
      assert ([c] + s)[1..] == s;
    } else {
      SplitAfterPrefix(prefix[1..], s, c);
      var t := prefix + [c] + s;
      assert t[0] == prefix[0] && t[1..] == prefix[1..] + [c] + s;
      assert [prefix[0]] + prefix[1..] == prefix;
    }
  }

  const Bearer: string := "Bearer"
  const NoToken: string := "Access denied. No token provided."
  const UserNotFound: string := "Invalid token. User not found."
  const TokenExpired: string := "Token expired."
  const InvalidToken: string := "Invalid token."
  const ExpiredErrorName: string := "TokenExpiredError"

  /** `authHeader.split(' ')[1]`; "" when there is no second field (the
      undefined value fails the same truthiness test as ""). */
  function TokenOf(header: string): (t: string)
    ensures ' ' !in t
  {
    var parts := Split(header, ' ');
    if |parts| > 1 then parts[1] else ""
  }

  /** The token is the text after "Bearer " up to the next space: exactly
      the rest when it holds no space, and "" when the rest is empty or
      starts with a space. */
  lemma TokenOfBearer(rest: string)
    ensures ' ' !in rest ==> TokenOf(Bearer + " " + rest) == rest
    ensures rest == "" ==> TokenOf(Bearer + " " + rest) == ""
    ensures |rest| > 0 && rest[0] == ' ' ==> TokenOf(Bearer + " " + rest) == ""
  {
    SplitAfterPrefix(Bearer, rest, ' ');
    assert Bearer + " " + rest == Bearer + [' '] + rest;
    if ' ' !in rest {
      SplitNoSeparator(rest, ' ');
    }
  }

  lemma {:induction false} SplitNoSeparator(s: string, c: char)
    requires c !in s
    ensures Split(s, c) == [s]
    decreases |s|
  {
    if |s| > 0 {
      SplitNoSeparator(s[1..], c);
      assert [s[0]] + s[1..] == s;
    }
  }

  /** What `jwt.verify` does with a token: it yields the payload's user id
      or throws an error with a name. */
  datatype TokenCheck = Decoded(userId: nat) | Thrown(errorName: string)

  /** What the user lookup does: find, miss, or throw. */
  datatype Lookup<T> = Found(value: T) | Missing | Failed(errorName: string)

  datatype AuthResult = Authenticated(user: AuthRegistry.User) | Denied(status: nat, error: string)

  /** The name of the error a lookup or verification threw, if any. */
  function ThrownName(check: TokenCheck, lookup: Lookup<AuthRegistry.User>): Option<string>
  {
    if check.Thrown? then Some(check.errorName)
    else if lookup.Failed? then Some(lookup.errorName)
    else None
  }

  /** `verifyToken`: the request proceeds, with the user attached, only
      when the header starts with "Bearer ", the second field is
      non-empty, verification succeeds and the user exists. Every failure
      is 401; a thrown error answers "Token expired." exactly when its
      name is TokenExpiredError. */
  function VerifyToken(header: Option<string>, verify: string -> TokenCheck,
                       findUser: nat -> Lookup<AuthRegistry.User>): (r: AuthResult)
    ensures r.Denied? ==> r.status == 401
    ensures (header.None? || !Text.StartsWith(header.value, Bearer + " ")) ==> r == Denied(401, NoToken)
    ensures r.Authenticated? <==>
      header.Some? && Text.StartsWith(header.value, Bearer + " ") && TokenOf(header.value) != "" &&
      verify(TokenOf(header.value)).Decoded? && findUser(verify(TokenOf(header.value)).userId).Found?
    ensures r.Authenticated? ==> r.user == findUser(verify(TokenOf(header.value)).userId).value
    ensures r == Denied(401, TokenExpired) <==>
      header.Some? && Text.StartsWith(header.value, Bearer + " ") && TokenOf(header.value) != "" &&
      ThrownName(verify(TokenOf(header.value)),
                 if verify(TokenOf(header.value)).Decoded? then findUser(verify(TokenOf(header.value)).userId) else Missing)
        == Some(ExpiredErrorName)
  {
    if header.None? || !Text.StartsWith(header.value, Bearer + " ") then Denied(401, NoToken)
    else
      var token := TokenOf(header.value);
      if token == "" then Denied(401, NoToken)
      else
        match verify(token)
        case Thrown(name) => Denied(401, if name == ExpiredErrorName then TokenExpired else InvalidToken)
        case Decoded(id) =>
          match findUser(id)
          case Found(user) => Authenticated(user)
          case Missing => Denied(401, UserNotFound)
          case Failed(name) => Denied(401, if name == ExpiredErrorName then TokenExpired else InvalidToken)
  }

  /** A header "Bearer " with nothing after it, or with a second space, is
      refused without calling the verifier. */
  lemma EmptyTokenRefused(rest: string, verify: string -> TokenCheck, findUser: nat -> Lookup<AuthRegistry.User>)
    requires rest == "" || rest[0] == ' '
    ensures VerifyToken(Some(Bearer + " " + rest), verify, findUser) == Denied(401, NoToken)
  {
    TokenOfBearer(rest);
    assert Text.StartsWith(Bearer + " " + rest, Bearer + " ");
  }

  /** The user table as `findByPk` sees it. */
  function UserLookup(users: seq<AuthRegistry.User>, id: nat): (r: Lookup<AuthRegistry.User>)
    ensures r.Found? <==> AuthRegistry.UserIdTaken(users, id)
    ensures r.Found? ==> r.value in users && r.value.id == id
    ensures !r.Failed?
  {
    match AuthRegistry.FindById(users, id)
    case Some(k) => Found(users[k])
    case None => Missing
  }

  const WalletRequired: string := "Wallet address is required."
  const WalletNotOwned: string := "Wallet not associated with this account."
  const InternalError: string := "Internal server error."

  datatype OwnershipResult = Owned(wallet: AuthRegistry.Wallet) | Refused(status: nat, error: string)

  /** `Wallet.findOne({ where: { user_id, address } })`: the first wallet
      of that user with that address. */
  function FindOwned(wallets: seq<AuthRegistry.Wallet>, userId: nat, address: string): (r: Option<AuthRegistry.Wallet>)
    ensures r.Some? ==> r.value in wallets && r.value.userId == userId && r.value.address == address
    ensures r.None? <==> forall i :: 0 <= i < |wallets| ==> !(wallets[i].userId == userId && wallets[i].address == address)
  {
    if |wallets| == 0 then None
    else if wallets[0].userId == userId && wallets[0].address == address then Some(wallets[0])
    else
      var r := FindOwned(wallets[1..], userId, address);
      assert forall i :: 1 <= i < |wallets| ==> wallets[i] == wallets[1..][i - 1];
      r
  }

  /** `verifyWalletOwnership`: a missing (empty) wallet address is 400, a
      failing lookup 500, an address not linked to the user 403; the
      request proceeds, with the wallet attached, only when it is found. */
  function VerifyWalletOwnership(walletAddress: string, userId: nat, wallets: seq<AuthRegistry.Wallet>,
                                 lookupFails: bool): (r: OwnershipResult)
    ensures walletAddress == "" <==> r == Refused(400, WalletRequired)
    ensures r == Refused(500, InternalError) <==> walletAddress != "" && lookupFails
    ensures r == Refused(403, WalletNotOwned) <==>
      walletAddress != "" && !lookupFails &&
      forall i :: 0 <= i < |wallets| ==> !(wallets[i].userId == userId && wallets[i].address == walletAddress)
    ensures r.Owned? ==> r.wallet in wallets && r.wallet.userId == userId && r.wallet.address == walletAddress
  {
    if walletAddress == "" then Refused(400, WalletRequired)
    else if lookupFails then Refused(500, InternalError)
    else
      match FindOwned(wallets, userId, walletAddress)
      case None => Refused(403, WalletNotOwned)
      case Some(w) => Owned(w)
  }

  /** A wallet the registry just connected passes the ownership check for
      its user and for nobody else. */
  lemma ConnectedWalletOwned(wallets: seq<AuthRegistry.Wallet>, w: AuthRegistry.Wallet, other: nat)
    requires AuthRegistry.DistinctAddresses(wallets + [w]) && w.address != ""
    requires other != w.userId
    ensures VerifyWalletOwnership(w.address, w.userId, wallets + [w], false) == Owned(w)
    ensures VerifyWalletOwnership(w.address, other, wallets + [w], false) == Refused(403, WalletNotOwned)
  {
    var ws := wallets + [w];
    assert ws[|ws| - 1] == w;
    var r := FindOwned(ws, w.userId, w.address);
    assert r.Some?;
    assert r.value in ws;
    var k :| 0 <= k < |ws| && ws[k] == r.value;
    assert k == |ws| - 1;
    forall i | 0 <= i < |ws|
      ensures !(ws[i].userId == other && ws[i].address == w.address)
    {
      assert i < |ws| - 1 ==> ws[i].address != ws[|ws| - 1].address;
    }
  }
}
