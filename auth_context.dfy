/**
 * The account registry (src/context/AuthContext.tsx): registration with its duplicate-email and
 * per-address checks, login, logout and the load of the session copy on mount. The scans over the
 * store are pure functions; the provider, whose `user` state the operations set, is a class over
 * the shared store.
 */
module Auth {
  import opened Wrappers
  import opened Storage

  datatype AuthError = EmailExists | IpLimitReached | InvalidCredentials | UserNotFound | CorruptRecord

  /**
   * The message each failure is raised with and shown. A parse failure carries the parser's own
   * message, which is not modelled.
   */
  function Message(e: AuthError): Option<string> {
    match e
    case EmailExists => Some("Email already exists")
    case IpLimitReached => Some("Account limit reached for this IP address (max 2 accounts)")
    case InvalidCredentials => Some("Invalid email or password")
    case UserNotFound => Some("User not found")
    case CorruptRecord => None
  }

  /** `JSON.parse(item).email`: the email a stored value carries, if any. */
  function EmailOf(v: Value): Option<string> {
    match v
    case UserRecord(u) => Some(u.email)
    case CredentialsRecord(email, _) => Some(email)
    case _ => None
  }

  /**
   * The duplicate-email scan of `register`: the keys whose value carries `email`. Every value in
   * the store is scanned, accounts and credentials alike; unparseable ones are skipped.
   */
  function EmailHolders(m: Store, email: string): (keys: set<string>)
    ensures keys <= m.Keys
    ensures forall k | k in m && EmailOf(m[k]) == Some(email) :: k in keys
    ensures forall k | k in keys :: EmailOf(m[k]) == Some(email)
  {
    set k | k in m && EmailOf(m[k]) == Some(email)
  }

  /** `existingUsers.length > 0`: some stored value already carries `email`. */
  function EmailTaken(m: Store, email: string): (taken: bool)
    ensures taken <==> exists k | k in m :: EmailOf(m[k]) == Some(email)
  {
    EmailHolders(m, email) != {}
  }

  /**
   * The filter of `checkIpLimit`: a parsed value with a truthy `id` and a truthy `ipAddress`,
   * giving that address. Only accounts carry an address.
   */
  function IpOf(v: Value): Option<string> {
    if v.UserRecord? && v.user.id != "" && v.user.ipAddress != "" then Some(v.user.ipAddress) else None
  }

  /** The keys `checkIpLimit` counts for `ip`: every value, including the session copy under `"user"`. */
  function IpHolders(m: Store, ip: string): (keys: set<string>)
    ensures keys <= m.Keys
    ensures forall k | k in m && IpOf(m[k]) == Some(ip) :: k in keys
    ensures forall k | k in keys :: IpOf(m[k]) == Some(ip)
  {
    set k | k in m && IpOf(m[k]) == Some(ip)
  }

  /** `checkIpLimit`: fails once two or more counted values carry the address; else yields the address. */
  function CheckIpLimit(m: Store, ip: string): (r: Result<string, AuthError>)
    ensures r == Ok(ip) || r == Err(IpLimitReached)
    ensures r.Err? <==> |IpHolders(m, ip)| >= 2
  {
    if |IpHolders(m, ip)| >= 2 then Err(IpLimitReached) else Ok(ip)
  }

  /** The outcome of `register`: the new account, or the first check that refused it. */
  function Registration(m: Store, email: string, ip: string, id: string, createdAt: string): (r: Result<User, AuthError>)
    // the duplicate-email check comes first
    ensures r == Err(EmailExists) <==> EmailTaken(m, email)
    ensures r == Err(IpLimitReached) <==> !EmailTaken(m, email) && |IpHolders(m, ip)| >= 2
    ensures r.Ok? ==> !EmailTaken(m, email) && |IpHolders(m, ip)| < 2
    // both checks passing is enough for the account to be created
    ensures !EmailTaken(m, email) && |IpHolders(m, ip)| < 2 ==> r == Ok(User(id, email, createdAt, ip, 1))
    // a new account starts with one free coin and the address it registered from
    ensures r.Ok? ==> r.value == User(id, email, createdAt, ip, 1)
  {
    if EmailTaken(m, email) then Err(EmailExists)
    else match CheckIpLimit(m, ip)
      case Err(e) => Err(e)
      case Ok(address) => Ok(User(id, email, createdAt, address, 1))
  }

  /** The three writes of a successful `register`: the account, the credentials, the session copy. */
  function RegisteredStore(m: Store, u: User, password: string): (m': Store)
    ensures m'.Keys == m.Keys + {UserKey(u.id), CredentialsKey(u.email), SessionKey}
    ensures m'[UserKey(u.id)] == UserRecord(u) && m'[SessionKey] == UserRecord(u)
    ensures m'[CredentialsKey(u.email)] == CredentialsRecord(u.email, password)
    ensures forall k | k in m && k != UserKey(u.id) && k != CredentialsKey(u.email) && k != SessionKey ::
              m'[k] == m[k]
  {
    KeysDistinct(u.id, u.email);
    m[UserKey(u.id) := UserRecord(u)][CredentialsKey(u.email) := CredentialsRecord(u.email, password)]
     [SessionKey := UserRecord(u)]
  }

  /** The accounts `login` can find for `email`: those under a `user_` key. */
  function UsersWithEmail(m: Store, email: string): (users: set<User>)
    ensures forall k | k in m && IsUserKey(k) && m[k].UserRecord? && m[k].user.email == email ::
              m[k].user in users
    ensures forall u | u in users :: u.email == email &&
              exists k | k in m && IsUserKey(k) :: m[k] == UserRecord(u)
  {
    set k | k in m && IsUserKey(k) && m[k].UserRecord? && m[k].user.email == email :: m[k].user
  }

  /** Some `user_` key holds unparseable text, so `login`'s parse of every account throws. */
  predicate HasCorruptAccount(m: Store) {
    exists k | k in m :: IsUserKey(k) && m[k].Garbage?
  }

  /** `credentials_<email>` holds credentials whose password is `password`. */
  predicate CredentialsMatch(m: Store, email: string, password: string) {
    && CredentialsKey(email) in m
    && m[CredentialsKey(email)].CredentialsRecord?
    && m[CredentialsKey(email)].password == password
  }

  /** The outcome of `login`: the accounts it may pick, or the error it raises. */
  function LoginOutcome(m: Store, email: string, password: string): (r: Result<set<User>, AuthError>)
    // missing credentials or a wrong password
    ensures r == Err(InvalidCredentials) <==>
              || CredentialsKey(email) !in m
              || (!m[CredentialsKey(email)].Garbage? &&
                  !(m[CredentialsKey(email)].CredentialsRecord? && m[CredentialsKey(email)].password == password))
    // the credentials match, but no account carries the email
    ensures r == Err(UserNotFound) <==>
              && CredentialsMatch(m, email, password)
              && !HasCorruptAccount(m) && UsersWithEmail(m, email) == {}
    ensures r.Ok? ==>
              && CredentialsMatch(m, email, password)
              && !HasCorruptAccount(m) && r.value == UsersWithEmail(m, email) && r.value != {}
    // matching credentials, no unreadable account and a candidate are enough for success
    ensures CredentialsMatch(m, email, password) && !HasCorruptAccount(m) && UsersWithEmail(m, email) != {} ==>
              r == Ok(UsersWithEmail(m, email))
    // a parse failure comes only from unreadable credentials or, once they match, an unreadable account
    ensures r == Err(CorruptRecord) <==>
              || (CredentialsKey(email) in m && m[CredentialsKey(email)].Garbage?)
              || (CredentialsMatch(m, email, password) && HasCorruptAccount(m))
    ensures r.Err? ==> r.error in {InvalidCredentials, UserNotFound, CorruptRecord}
  {
    var key := CredentialsKey(email);
    if key !in m then Err(InvalidCredentials)
    else if m[key].Garbage? then Err(CorruptRecord)
    else if !(m[key].CredentialsRecord? && m[key].password == password) then Err(InvalidCredentials)
    else if HasCorruptAccount(m) then Err(CorruptRecord)
    else
      var found := UsersWithEmail(m, email);
      if found == {} then Err(UserNotFound) else Ok(found)
  }

  /** The React provider: the in-memory `user` state and the loading flag over the shared store. */
  class AuthProvider {
    const storage: LocalStorage
    var user: Option<User>
    var isLoading: bool

    constructor (storage: LocalStorage)
      ensures this.storage == storage && user == None && isLoading
    {
      this.storage := storage;
      user := None;
      isLoading := true;
    }

    /** The effect run on mount: a readable session copy becomes `user`; unreadable text is ignored. */
    method LoadStoredUser()
      modifies this
      ensures user == if SessionKey in storage.items && storage.items[SessionKey].UserRecord?
                      then Some(storage.items[SessionKey].user) else old(user)
      ensures !isLoading
    {
      var storedUser := storage.GetItem(SessionKey);
      if storedUser.Some? && storedUser.value.UserRecord? {
        user := Some(storedUser.value.user);
      }
      isLoading := false;
    }

    /** `register`, with the address lookup, the random id and the clock supplied by the caller. */
    method Register(email: string, password: string, ip: string, id: string, createdAt: string)
      returns (r: Result<User, AuthError>)
      modifies this, storage
      ensures r == Registration(old(storage.items), email, ip, id, createdAt)
      ensures storage.items == if r.Ok? then RegisteredStore(old(storage.items), r.value, password)
                               else old(storage.items)
      ensures user == if r.Ok? then Some(r.value) else old(user)
      ensures !isLoading
    {
      isLoading := true;
      var existingUsers := EmailHolders(storage.items, email);
      if |existingUsers| > 0 {
        isLoading := false;
        return Err(EmailExists);
      }
      var limit := CheckIpLimit(storage.items, ip);
      if limit.Err? {
        isLoading := false;
        return Err(limit.error);
      }
      var newUser := User(id, email, createdAt, limit.value, 1);
      storage.SetItem(UserKey(newUser.id), UserRecord(newUser));
      storage.SetItem(CredentialsKey(email), CredentialsRecord(email, password));
      user := Some(newUser);
      storage.SetItem(SessionKey, UserRecord(newUser));
      isLoading := false;
      r := Ok(newUser);
    }

    /** `login`. Which account `find` returns depends on key order, so any candidate may be chosen. */
    method Login(email: string, password: string) returns (r: Result<User, AuthError>)
      modifies this, storage
      ensures var outcome := LoginOutcome(old(storage.items), email, password);
              && (outcome.Err? ==> r == Err(outcome.error) && storage.items == old(storage.items) && user == old(user))
              && (outcome.Ok? ==> r.Ok? && r.value in outcome.value && user == Some(r.value)
                                  && storage.items == old(storage.items)[SessionKey := UserRecord(r.value)])
      ensures !isLoading
    {
      isLoading := true;
      var storedCredentials := storage.GetItem(CredentialsKey(email));
      if storedCredentials.None? {
        isLoading := false;
        return Err(InvalidCredentials);
      }
      if storedCredentials.value.Garbage? {
        isLoading := false;
        return Err(CorruptRecord);
      }
      var credentials := storedCredentials.value;
      if !(credentials.CredentialsRecord? && credentials.password == password) {
        isLoading := false;
        return Err(InvalidCredentials);
      }
      if HasCorruptAccount(storage.items) {
        isLoading := false;
        return Err(CorruptRecord);
      }
      var users := UsersWithEmail(storage.items, email);
      if users == {} {
        isLoading := false;
        return Err(UserNotFound);
      }
      var foundUser :| foundUser in users;
      user := Some(foundUser);
      storage.SetItem(SessionKey, UserRecord(foundUser));
      isLoading := false;
      r := Ok(foundUser);
    }

    /** `logout`: clears `user` and removes the session copy, nothing else. */
    method Logout()
      modifies this, storage
      ensures user == None
      ensures storage.items == old(storage.items) - {SessionKey}
      ensures isLoading == old(isLoading)
    {
      user := None;
      storage.RemoveItem(SessionKey);
    }
  }

  /** The messages `register` and `login` raise for each refusal. */
  lemma RefusalMessages(m: Store, email: string, password: string, ip: string, id: string, createdAt: string)
    ensures EmailTaken(m, email) ==>
              Message(Registration(m, email, ip, id, createdAt).error) == Some("Email already exists")
    ensures !EmailTaken(m, email) && |IpHolders(m, ip)| >= 2 ==>
              Message(Registration(m, email, ip, id, createdAt).error)
              == Some("Account limit reached for this IP address (max 2 accounts)")
    ensures CredentialsKey(email) !in m ==>
              Message(LoginOutcome(m, email, password).error) == Some("Invalid email or password")
    ensures CredentialsKey(email) in m && m[CredentialsKey(email)].CredentialsRecord?
            && m[CredentialsKey(email)].password != password ==>
              Message(LoginOutcome(m, email, password).error) == Some("Invalid email or password")
    ensures CredentialsMatch(m, email, password) && !HasCorruptAccount(m) && UsersWithEmail(m, email) == {} ==>
              Message(LoginOutcome(m, email, password).error) == Some("User not found")
  {
  }

  /** A logged-in account is counted twice, through its record and through its session copy. */
  lemma SessionCopyCountsTwice(m: Store, u: User)
    requires UserKey(u.id) in m && m[UserKey(u.id)] == UserRecord(u)
    requires SessionKey in m && m[SessionKey] == UserRecord(u)
    requires u.id != "" && u.ipAddress != ""
    ensures |IpHolders(m, u.ipAddress)| >= 2
    ensures CheckIpLimit(m, u.ipAddress) == Err(IpLimitReached)
  {
    KeysDistinct(u.id, "");
    var pair := {UserKey(u.id), SessionKey};
    assert |pair| == 2;
    SubsetCardinality(pair, IpHolders(m, u.ipAddress));
  }

  /**
   * Right after a registration, a second one from the same address fails, whatever the email:
   * the new account and its session copy already reach the cap of two.
   */
  lemma SecondRegistrationRefused(m: Store, email: string, password: string, ip: string, id: string,
                                  createdAt: string, email2: string, id2: string, createdAt2: string)
    requires Registration(m, email, ip, id, createdAt).Ok?
    requires id != "" && ip != ""
    ensures Registration(RegisteredStore(m, Registration(m, email, ip, id, createdAt).value, password),
                         email2, ip, id2, createdAt2).Err?
  {
    var u := Registration(m, email, ip, id, createdAt).value;
    SessionCopyCountsTwice(RegisteredStore(m, u, password), u);
  }

  /** The account keys whose account comes from `ip`. */
  function AccountsFromIp(m: Store, ip: string): (keys: set<string>)
    ensures keys <= IpHolders(m, ip)
    ensures forall k | k in keys :: IsUserKey(k)
  {
    set k | k in m && IsUserKey(k) && IpOf(m[k]) == Some(ip)
  }

  /** The cap that registration enforces, as the source promises it: at most two accounts per address. */
  ghost predicate AtMostTwoAccountsPerIp(m: Store) {
    forall ip :: |AccountsFromIp(m, ip)| <= 2
  }

  /** The empty store a first visit starts from is within the cap. */
  lemma EmptyStoreMeetsIpCap()
    ensures AtMostTwoAccountsPerIp(map[])
  {
    forall ip ensures |AccountsFromIp(map[], ip)| <= 2 {
      assert AccountsFromIp(map[], ip) == {};
    }
  }

  /** Registration adds at most the new account to the accounts of one address. */
  lemma AccountsAfterRegister(m: Store, u: User, password: string, ip: string)
    ensures AccountsFromIp(RegisteredStore(m, u, password), ip) <= AccountsFromIp(m, ip) + {UserKey(u.id)}
    ensures ip != u.ipAddress ==> AccountsFromIp(RegisteredStore(m, u, password), ip) <= AccountsFromIp(m, ip)
  {
  }

  /** Registration keeps every address at two accounts or fewer. */
  lemma RegisterKeepsIpCap(m: Store, email: string, password: string, ip: string, id: string, createdAt: string)
    requires AtMostTwoAccountsPerIp(m)
    requires Registration(m, email, ip, id, createdAt).Ok?
    ensures AtMostTwoAccountsPerIp(RegisteredStore(m, Registration(m, email, ip, id, createdAt).value, password))
  {
    var u := Registration(m, email, ip, id, createdAt).value;
    var m' := RegisteredStore(m, u, password);
    forall ip' ensures |AccountsFromIp(m', ip')| <= 2 {
      var before := AccountsFromIp(m, ip');
      AccountsAfterRegister(m, u, password, ip');
      if ip' == ip {
        SubsetCardinality(before, IpHolders(m, ip));
        SubsetCardinality(AccountsFromIp(m', ip'), before + {UserKey(id)});
      } else {
        SubsetCardinality(AccountsFromIp(m', ip'), before);
      }
    }
  }

  lemma SubsetCardinality(a: set<string>, b: set<string>)
    requires a <= b
    ensures |a| <= |b|
  {
    assert b == a + (b - a);
  }

  /** Registration keeps account emails unique, since it refuses an email any value already carries. */
  lemma RegisterKeepsEmailsUnique(m: Store, email: string, password: string, ip: string, id: string, createdAt: string)
    requires UniqueEmails(m)
    requires Registration(m, email, ip, id, createdAt).Ok?
    ensures UniqueEmails(RegisteredStore(m, Registration(m, email, ip, id, createdAt).value, password))
  {
  }

  /** Registration keeps the store invariant; the session copy is the new account itself. */
  lemma RegisterPreservesConsistency(m: Store, email: string, password: string, ip: string, id: string, createdAt: string)
    requires Consistent(m)
    requires Registration(m, email, ip, id, createdAt).Ok?
    ensures Consistent(RegisteredStore(m, Registration(m, email, ip, id, createdAt).value, password))
  {
  }

  /** Under unique emails `login` has at most one account to choose from, so it is deterministic. */
  lemma LoginDeterministic(m: Store, email: string)
    requires UniqueEmails(m)
    ensures |UsersWithEmail(m, email)| <= 1
  {
    var users := UsersWithEmail(m, email);
    if users != {} {
      var u1 :| u1 in users;
      var k1 :| k1 in m && IsUserKey(k1) && m[k1] == UserRecord(u1);
      forall v | v in users ensures v == u1 {
        var k :| k in m && IsUserKey(k) && m[k] == UserRecord(v);
      }
      assert users == {u1};
    }
  }

  /** Login keeps the store invariant: the account it copies into the session is its own record. */
  lemma LoginPreservesConsistency(m: Store, email: string, u: User)
    requires Consistent(m)
    requires u in UsersWithEmail(m, email)
    ensures Consistent(m[SessionKey := UserRecord(u)])
  {
  }

  /** Logging out keeps the store invariant. */
  lemma LogoutPreservesConsistency(m: Store)
    requires Consistent(m)
    ensures Consistent(m - {SessionKey})
  {
  }

  /**
   * Register and login are partners: after registering and logging out, logging in with the same
   * email and password finds exactly the registered account.
   */
  lemma RegisterThenLogin(m: Store, email: string, password: string, ip: string, id: string, createdAt: string)
    requires Registration(m, email, ip, id, createdAt).Ok?
    requires !HasCorruptAccount(m)
    ensures var u := Registration(m, email, ip, id, createdAt).value;
            LoginOutcome(RegisteredStore(m, u, password) - {SessionKey}, email, password) == Ok({u})
  {
    var u := Registration(m, email, ip, id, createdAt).value;
    var m' := RegisteredStore(m, u, password) - {SessionKey};
    KeysDistinct(id, email);
    assert m'[CredentialsKey(email)] == CredentialsRecord(email, password);
    assert !HasCorruptAccount(m');
    var users := UsersWithEmail(m', email);
    assert u in users;
    forall v | v in users ensures v == u {
      var k :| k in m' && IsUserKey(k) && m'[k] == UserRecord(v);
    }
    assert users == {u};
  }
}
