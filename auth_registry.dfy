/** The user and wallet registry behind the authentication routes. Users
    and wallets are rows in insertion order; identifiers are generated by
    the database (UUIDs) and arrive as parameters. Request validation is
    done by a validator chain before the handler, whose error list arrives
    as a parameter; password checking is a model method and arrives as a
    predicate. Token signing is not modelled. */
module AuthRegistry {
  import opened Wrappers

  datatype User = User(id: nat, email: string, passwordHash: string)

  datatype Wallet = Wallet(id: nat, userId: nat, address: string, chainId: int, isPrimary: bool)

  datatype Reply =
    | Registered(userId: nat, email: string)
    | LoggedIn(userId: nat, email: string, wallets: seq<Wallet>)
    | WalletConnected(wallet: Wallet)
    | UserUpdated(userId: nat, email: string)
    | InvalidRequest(errors: seq<string>)
    | Refused(status: nat, error: string)

  function Status(r: Reply): nat
  {
    match r
    case Registered(_, _) => 201
    case LoggedIn(_, _, _) => 200
    case WalletConnected(_) => 201
    case UserUpdated(_, _) => 200
    case InvalidRequest(_) => 400
    case Refused(status, _) => status
  }

  const EmailExists: string := "User with this email already exists"
  const BadCredentials: string := "Invalid email or password"
  const WalletTaken: string := "Wallet already connected to an account"
  const EmailInUse: string := "Email already in use"
  const InternalError: string := "Internal server error"

  predicate EmailTaken(users: seq<User>, email: string)
  {
    exists i :: 0 <= i < |users| && users[i].email == email
  }

  predicate UserIdTaken(users: seq<User>, id: nat)
  {
    exists i :: 0 <= i < |users| && users[i].id == id
  }

  predicate AddressTaken(wallets: seq<Wallet>, address: string)
  {
    exists i :: 0 <= i < |wallets| && wallets[i].address == address
  }

  predicate WalletIdTaken(wallets: seq<Wallet>, id: nat)
  {
    exists i :: 0 <= i < |wallets| && wallets[i].id == id
  }

  /** `findOne({ where: { email } })`: the first user with that email. */
  function FindByEmail(users: seq<User>, email: string): (r: Option<nat>)
    ensures r.Some? ==> r.value < |users| && users[r.value].email == email
    ensures r.None? <==> !EmailTaken(users, email)
  {
    if |users| == 0 then None
    else if users[|users| - 1].email == email && FindByEmail(users[..|users| - 1], email).None? then Some(|users| - 1)
    else
      var r := FindByEmail(users[..|users| - 1], email);
      if r.Some? then r
      else
        assert forall i :: 0 <= i < |users| - 1 ==> users[i] == users[..|users| - 1][i];
        None
  }

  /** `findByPk(id)`. */
  function FindById(users: seq<User>, id: nat): (r: Option<nat>)
    ensures r.Some? ==> r.value < |users| && users[r.value].id == id
    ensures r.None? <==> !UserIdTaken(users, id)
  {
    if |users| == 0 then None
    else if users[|users| - 1].id == id then Some(|users| - 1)
    else
      var r := FindById(users[..|users| - 1], id);
      if r.Some? then r
      else
        assert forall i :: 0 <= i < |users| - 1 ==> users[i] == users[..|users| - 1][i];
        None
  }

  /** `Wallet.findAll({ where: { user_id } })`, in insertion order. */
  function WalletsOf(wallets: seq<Wallet>, userId: nat): (r: seq<Wallet>)
    ensures |r| <= |wallets|
    ensures forall w :: w in r <==> w in wallets && w.userId == userId
    ensures |r| == 0 <==> forall j :: 0 <= j < |wallets| ==> wallets[j].userId != userId
  {
    if |wallets| == 0 then []
    else
      var rest := WalletsOf(wallets[..|wallets| - 1], userId);
      assert forall j :: 0 <= j < |wallets| - 1 ==> wallets[j] == wallets[..|wallets| - 1][j];
      assert wallets == wallets[..|wallets| - 1] + [wallets[|wallets| - 1]];
      if wallets[|wallets| - 1].userId == userId then rest + [wallets[|wallets| - 1]] else rest
  }

  /** Emails are unique among users. */
  predicate DistinctEmails(users: seq<User>)
  {
    forall i, j :: 0 <= i < j < |users| ==> users[i].email != users[j].email
  }

  predicate DistinctUserIds(users: seq<User>)
  {
    forall i, j :: 0 <= i < j < |users| ==> users[i].id != users[j].id
  }

  /** Wallet addresses are unique across all users. */
  predicate DistinctAddresses(wallets: seq<Wallet>)
  {
    forall i, j :: 0 <= i < j < |wallets| ==> wallets[i].address != wallets[j].address
  }

  predicate DistinctWalletIds(wallets: seq<Wallet>)
  {
    forall i, j :: 0 <= i < j < |wallets| ==> wallets[i].id != wallets[j].id
  }

  /** A wallet is primary exactly when it was its user's first. */
  predicate PrimaryIsFirst(wallets: seq<Wallet>)
  {
    forall k :: 0 <= k < |wallets| ==>
      (wallets[k].isPrimary <==> forall j :: 0 <= j < k ==> wallets[j].userId != wallets[k].userId)
  }

  /** Adding a wallet with a fresh address and a fresh id keeps both
      unique. */
  lemma AppendKeepsDistinct(wallets: seq<Wallet>, w: Wallet)
    requires DistinctAddresses(wallets) && DistinctWalletIds(wallets)
    requires !AddressTaken(wallets, w.address) && !WalletIdTaken(wallets, w.id)
    ensures DistinctAddresses(wallets + [w]) && DistinctWalletIds(wallets + [w])
  {
    var ws := wallets + [w];
    forall i, j | 0 <= i < j < |ws| ensures ws[i].address != ws[j].address && ws[i].id != ws[j].id {
      assert ws[i] == wallets[i];
      if j < |wallets| {
        assert ws[j] == wallets[j];
      } else {
        assert ws[j] == w;
      }
    }
  }

  /** Adding a wallet that is primary exactly when its user had none keeps
      the first-wallet-is-primary rule. */
  lemma AppendKeepsPrimaryIsFirst(wallets: seq<Wallet>, w: Wallet)
    requires PrimaryIsFirst(wallets)
    requires w.isPrimary <==> |WalletsOf(wallets, w.userId)| == 0
    ensures PrimaryIsFirst(wallets + [w])
  {
    var ws := wallets + [w];
    forall k | 0 <= k < |ws|
      ensures ws[k].isPrimary <==> forall j :: 0 <= j < k ==> ws[j].userId != ws[k].userId
    {
      if k < |wallets| {
        assert ws[k] == wallets[k];
        assert forall j :: 0 <= j < k ==> ws[j] == wallets[j];
      } else {
        assert ws[k] == w;
        assert forall j :: 0 <= j < k ==> ws[j] == wallets[j];
      }
    }
  }

  /** Every user has at most one primary wallet, and a user with wallets
      has its first one primary. */
  lemma PrimaryUnique(wallets: seq<Wallet>, i: nat, j: nat)
    requires PrimaryIsFirst(wallets)
    requires i < j < |wallets| && wallets[i].userId == wallets[j].userId
    ensures !wallets[j].isPrimary
  {
  }

  lemma FirstWalletIsPrimary(wallets: seq<Wallet>, userId: nat)
    requires PrimaryIsFirst(wallets)
    requires exists m :: 0 <= m < |wallets| && wallets[m].userId == userId
    ensures exists k :: 0 <= k < |wallets| && wallets[k].userId == userId && wallets[k].isPrimary
  {
    var k := FirstOfUser(wallets, userId, 0);
    PrimaryAt(wallets, k);
  }

  /** The first index at or after `from` holding a wallet of the user. */
  function FirstOfUser(wallets: seq<Wallet>, userId: nat, from: nat): (k: nat)
    requires from <= |wallets|
    requires forall j :: 0 <= j < from ==> wallets[j].userId != userId
    requires exists m :: from <= m < |wallets| && wallets[m].userId == userId
    ensures from <= k < |wallets| && wallets[k].userId == userId
    ensures forall j :: 0 <= j < k ==> wallets[j].userId != userId
    decreases |wallets| - from
  {
    if wallets[from].userId == userId then from else FirstOfUser(wallets, userId, from + 1)
  }

  /** The primary rule read at one index. */
  lemma PrimaryAt(wallets: seq<Wallet>, k: nat)
    requires PrimaryIsFirst(wallets) && k < |wallets|
    requires forall j :: 0 <= j < k ==> wallets[j].userId != wallets[k].userId
    ensures wallets[k].isPrimary
  {
  }

  class Registry {
    var users: seq<User>
    var wallets: seq<Wallet>

    predicate Valid()
      reads this
    {
      DistinctEmails(users) && DistinctUserIds(users) &&
      DistinctAddresses(wallets) && DistinctWalletIds(wallets) && PrimaryIsFirst(wallets)
    }

    constructor ()
      ensures users == [] && wallets == [] && Valid()
    {
      users := [];
      wallets := [];
    }

    /** `register`: refuses invalid input and an email already registered;
        otherwise creates exactly one user. A generated id that is already
        taken fails the insert with 500. */
    method Register(validationErrors: seq<string>, email: string, password: string, newId: nat)
      returns (reply: Reply)
      requires Valid()
      modifies this
      ensures Valid() && wallets == old(wallets)
      ensures validationErrors != [] ==> reply == InvalidRequest(validationErrors) && users == old(users)
      ensures validationErrors == [] && EmailTaken(old(users), email) ==>
        reply == Refused(400, EmailExists) && users == old(users)
      ensures reply.Registered? <==>
        validationErrors == [] && !EmailTaken(old(users), email) && !UserIdTaken(old(users), newId)
      ensures reply.Registered? ==>
        users == old(users) + [User(newId, email, password)] && reply == Registered(newId, email)
      ensures !reply.Registered? ==> users == old(users)
    {
      if validationErrors != [] {
        return InvalidRequest(validationErrors);
      }
      if FindByEmail(users, email).Some? {
        return Refused(400, EmailExists);
      }
      if FindById(users, newId).Some? {
        return Refused(500, InternalError);
      }
      users := users + [User(newId, email, password)];
      reply := Registered(newId, email);
    }

    /** `login`: an unknown email and a wrong password get the same 401
        answer; a match answers with the user's wallets. */
    function Login(validationErrors: seq<string>, email: string, password: string,
                   validatePassword: (User, string) -> bool): (r: Reply)
      reads this
      ensures validationErrors != [] ==> r == InvalidRequest(validationErrors)
      ensures validationErrors == [] && !EmailTaken(users, email) ==> r == Refused(401, BadCredentials)
      ensures r.LoggedIn? <==>
        validationErrors == [] && FindByEmail(users, email).Some? &&
        validatePassword(users[FindByEmail(users, email).value], password)
      ensures r.LoggedIn? ==>
        var u := users[FindByEmail(users, email).value];
        r.userId == u.id && r.email == email && r.wallets == WalletsOf(wallets, u.id)
      ensures !r.LoggedIn? && validationErrors == [] ==> r == Refused(401, BadCredentials)
    {
      if validationErrors != [] then InvalidRequest(validationErrors)
      else
        match FindByEmail(users, email)
        case None => Refused(401, BadCredentials)
        case Some(k) =>
          if !validatePassword(users[k], password) then Refused(401, BadCredentials)
          else LoggedIn(users[k].id, users[k].email, WalletsOf(wallets, users[k].id))
    }

    /** `connectWallet`: an address stored under any user is refused;
        otherwise one wallet is added, primary exactly when the user had
        none before. */
    method ConnectWallet(validationErrors: seq<string>, userId: nat, address: string, chainId: int, newId: nat)
      returns (reply: Reply)
      requires Valid()
      modifies this
      ensures Valid() && users == old(users)
      ensures validationErrors != [] ==> reply == InvalidRequest(validationErrors)
      ensures validationErrors == [] && AddressTaken(old(wallets), address) ==> reply == Refused(400, WalletTaken)
      ensures reply.WalletConnected? <==>
        validationErrors == [] && !AddressTaken(old(wallets), address) && !WalletIdTaken(old(wallets), newId)
      ensures reply.WalletConnected? ==>
        reply.wallet == Wallet(newId, userId, address, chainId, |WalletsOf(old(wallets), userId)| == 0) &&
        wallets == old(wallets) + [reply.wallet]
      ensures !reply.WalletConnected? ==> wallets == old(wallets)
    {
      if validationErrors != [] {
        return InvalidRequest(validationErrors);
      }
      if exists i :: 0 <= i < |wallets| && wallets[i].address == address {
        return Refused(400, WalletTaken);
      }
      if exists i :: 0 <= i < |wallets| && wallets[i].id == newId {
        return Refused(500, InternalError);
      }
      var walletCount := |WalletsOf(wallets, userId)|;
      var wallet := Wallet(newId, userId, address, chainId, walletCount == 0);
      AppendKeepsDistinct(wallets, wallet);
      AppendKeepsPrimaryIsFirst(wallets, wallet);
      wallets := wallets + [wallet];
      reply := WalletConnected(wallet);
    }

    /** `updateUser`: the email changes only when given, different from the
        current one and not used by another user (otherwise 400 and nothing
        changes); the password is replaced only when given. An unknown user
        id is a 500. Empty strings stand for absent fields. */
    method UpdateUser(userId: nat, email: string, password: string) returns (reply: Reply)
      requires Valid()
      modifies this
      ensures Valid() && wallets == old(wallets)
      ensures !UserIdTaken(old(users), userId) ==> reply == Refused(500, InternalError) && users == old(users)
      ensures UserIdTaken(old(users), userId) ==>
        var k := FindById(old(users), userId).value;
        var u := old(users)[k];
        if email != "" && email != u.email && EmailTaken(old(users), email) then
          reply == Refused(400, EmailInUse) && users == old(users)
        else
          var updated := u.(email := if email != "" then email else u.email,
                            passwordHash := if password != "" then password else u.passwordHash);
          users == old(users)[k := updated] && reply == UserUpdated(userId, updated.email)
    {
      var found := FindById(users, userId);
      if found.None? {
        return Refused(500, InternalError);
      }
      var k := found.value;
      var user := users[k];
      if email != "" {
        if email != user.email {
          if FindByEmail(users, email).Some? {
            return Refused(400, EmailInUse);
          }
          user := user.(email := email);
        }
      }
      if password != "" {
        user := user.(passwordHash := password);
      }
      users := users[k := user];
      reply := UserUpdated(user.id, user.email);
    }
  }

  /** After a successful registration the email identifies the new user. */
  lemma RegisteredIsFound(users: seq<User>, email: string, password: string, newId: nat)
    requires DistinctEmails(users) && !EmailTaken(users, email)
    ensures FindByEmail(users + [User(newId, email, password)], email) == Some(|users|)
  {
    var us := users + [User(newId, email, password)];
    assert us[..|us| - 1] == users;
  }
}
