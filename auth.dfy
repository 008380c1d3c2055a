/**
 * The account rules of auth_app: the checks of registration, the login
 * validation, the email-check endpoint and the token lookup-or-creation.
 */
module Auth {
  import opened Wrappers
  import opened Models
  import opened Query
  import opened Database

  const PasswordsDontMatch := "Passwords don't match."
  const EmailAlreadyUsed := "User with this email already exists."
  const UnknownUser := "User doesn't exist."
  const WrongPassword := "Wrong password"
  const EmailMissing := "Email missing"
  const InvalidEmailFormat := "Invalid email format"
  const EmailNotFound := "Email not found"

  function HasEmail(email: string): User -> bool
  {
    (u: User) => u.email == email
  }

  function HasUsername(name: string): User -> bool
  {
    (u: User) => u.username == name
  }

  /** `User.objects.filter(email=email).exists()`. */
  predicate EmailExists(users: seq<User>, email: string)
  {
    Filter(users, HasEmail(email)) != []
  }

  /** Whether some user already holds `name` as username (a unique column). */
  predicate UsernameExists(users: seq<User>, name: string)
  {
    Filter(users, HasUsername(name)) != []
  }

  lemma EmailExistsMeans(users: seq<User>, email: string)
    ensures EmailExists(users, email) <==> exists u :: u in users && u.email == email
  {
    var f := Filter(users, HasEmail(email));
    if f != [] {
      assert f[0] in f;
    }
  }

  // ----- registration (RegistrationSerializer.save) -----

  /**
   * The validated fields of a registration request. The email is optional:
   * `User.email` is a blank-allowed column, so the model serializer does
   * not require it.
   */
  datatype RegistrationData = RegistrationData(fullname: string, email: Option<string>, password: string, repeatedPassword: string)

  /**
   * What `save` does: create an account, raise a ValidationError, fail on
   * the unique username, or fail reading the absent email (KeyError).
   */
  datatype SaveOutcome = Saved(account: User) | Rejected(error: string) | UsernameClash | MissingEmail

  /** The account `save` builds: username and email are the email, the first name is the full name. */
  function NewAccount(id: UserId, data: RegistrationData): (u: User)
    requires data.email.Some?
    ensures u.id == id && u.username == data.email.value && u.email == data.email.value
    ensures u.firstName == data.fullname && !u.isSuperuser && u.password == data.password
  {
    User(id, data.email.value, data.email.value, data.fullname, false, data.password)
  }

  /**
   * The steps of `save`, in order: reading the validated fields (the email
   * may be absent), the password confirmation, the email's uniqueness, and
   * then the database's unique username.
   */
  function RegistrationOutcome(users: seq<User>, id: UserId, data: RegistrationData): (r: SaveOutcome)
    ensures r == MissingEmail <==> data.email.None?
    ensures r == Rejected(PasswordsDontMatch) <==> data.email.Some? && data.password != data.repeatedPassword
    ensures r == Rejected(EmailAlreadyUsed) <==>
      data.email.Some? && data.password == data.repeatedPassword && EmailExists(users, data.email.value)
    ensures r == UsernameClash <==>
      && data.email.Some? && data.password == data.repeatedPassword
      && !EmailExists(users, data.email.value) && UsernameExists(users, data.email.value)
    ensures r.Saved? <==>
      && data.email.Some? && data.password == data.repeatedPassword
      && !EmailExists(users, data.email.value) && !UsernameExists(users, data.email.value)
    ensures r.Saved? ==> data.email.Some? && r.account == NewAccount(id, data)
    ensures r.Rejected? ==> r.error == PasswordsDontMatch || r.error == EmailAlreadyUsed
  {
    if data.email.None? then MissingEmail
    else if data.password != data.repeatedPassword then Rejected(PasswordsDontMatch)
    else if EmailExists(users, data.email.value) then Rejected(EmailAlreadyUsed)
    else if UsernameExists(users, data.email.value) then UsernameClash
    else Saved(NewAccount(id, data))
  }

  // ----- login (CustomLoginEmailOnlySerializer.validate) -----

  /** The login fields after field validation. */
  datatype LoginData = LoginData(email: string, password: string)

  /** `data` once `validate` has added the authenticated `user`. */
  datatype ValidatedLogin = ValidatedLogin(email: string, password: string, user: User)

  datatype LoginOutcome =
    | LoggedIn(data: ValidatedLogin)
    | LoginRefused(error: string)
      /** `User.objects.get(email=...)` found several users: MultipleObjectsReturned is not caught. */
    | LoginCrashed

  /**
   * `validate`: the single user with the email, then the password check
   * (`check_password`, a parameter here). On success the input data comes
   * back with `user` added.
   */
  function ValidateLogin(users: seq<User>, data: LoginData, checkPassword: (User, string) -> bool): (r: LoginOutcome)
    ensures r == LoginRefused(UnknownUser) <==> forall u :: u in users ==> u.email != data.email
    ensures r == LoginRefused(WrongPassword) ==>
      exists u :: u in users && u.email == data.email && !checkPassword(u, data.password)
    ensures r.LoginRefused? ==> r.error == UnknownUser || r.error == WrongPassword
    ensures r.LoggedIn? ==>
      && r.data.email == data.email && r.data.password == data.password
      && r.data.user in users && r.data.user.email == data.email
      && checkPassword(r.data.user, data.password)
      && forall u :: u in users && u.email == data.email ==> u == r.data.user
    ensures r.LoginCrashed? <==> |Filter(users, HasEmail(data.email))| >= 2
    ensures |Filter(users, HasEmail(data.email))| == 1 ==>
      var u := Filter(users, HasEmail(data.email))[0];
      r == if checkPassword(u, data.password) then LoggedIn(ValidatedLogin(data.email, data.password, u))
           else LoginRefused(WrongPassword)
  {
    match Get(users, HasEmail(data.email))
    case NoRow => LoginRefused(UnknownUser)
    case ManyRows => LoginCrashed
    case OneRow(user) =>
      if !checkPassword(user, data.password) then LoginRefused(WrongPassword)
      else LoggedIn(ValidatedLogin(data.email, data.password, user))
  }

  // ----- email_check_view -----

  datatype EmailReply =
    | UserFound(id: UserId, email: string, fullname: string)
    | EmailRefused(status: nat, error: string)
      /** Several users share the email: MultipleObjectsReturned is not caught. */
    | EmailCrashed

  /** The query parameter is a plausible email: it has an '@' and a '.'. */
  predicate PlausibleEmail(email: string)
  {
    '@' in email && '.' in email
  }

  /**
   * `email_check_view`, in order: a missing or empty parameter (400), a
   * parameter without '@' or without '.' (400), no user with that email
   * (404), otherwise the user's id, email and first name.
   */
  function EmailCheck(users: seq<User>, email: Option<string>): (r: EmailReply)
    ensures r == EmailRefused(400, EmailMissing) <==> email.None? || email.value == ""
    ensures r == EmailRefused(400, InvalidEmailFormat) <==>
      email.Some? && email.value != "" && !PlausibleEmail(email.value)
    ensures r == EmailRefused(404, EmailNotFound) <==>
      email.Some? && PlausibleEmail(email.value) && forall u :: u in users ==> u.email != email.value
    ensures r.EmailRefused? ==> r.status == 400 || r.status == 404
    ensures r.UserFound? ==>
      exists u :: u in users && u.email == email.value && r == UserFound(u.id, u.email, u.firstName)
    ensures email.Some? && PlausibleEmail(email.value) ==>
      var found := Filter(users, HasEmail(email.value));
      && (|found| == 1 ==> r == UserFound(found[0].id, found[0].email, found[0].firstName))
      && (|found| >= 2 <==> r == EmailCrashed)
  {
    if email.None? || email.value == "" then EmailRefused(400, EmailMissing)
    else if !PlausibleEmail(email.value) then EmailRefused(400, InvalidEmailFormat)
    else
      match Get(users, HasEmail(email.value))
      case NoRow => EmailRefused(404, EmailNotFound)
      case ManyRows => EmailCrashed
      case OneRow(u) => UserFound(u.id, u.email, u.firstName)
  }

  // ----- Token.objects.get_or_create(user=...) -----

  /** The token table after the call, the token's key, and whether a row was created. */
  datatype TokenGrant = TokenGrant(tokens: TokenTable, key: string, created: bool)

  /** Returns the user's existing token, or stores `freshKey` as a new one. */
  function GetOrCreateToken(tokens: TokenTable, user: UserId, freshKey: string): (g: TokenGrant)
    ensures g.created <==> user !in tokens
    ensures user in g.tokens && g.key == g.tokens[user]
    ensures user in tokens ==> g.tokens == tokens && g.key == tokens[user]
    ensures user !in tokens ==> g.tokens == tokens[user := freshKey] && g.key == freshKey
  {
    if user in tokens then TokenGrant(tokens, tokens[user], false)
    else TokenGrant(tokens[user := freshKey], freshKey, true)
  }

  // ----- properties -----

  /** A second call for the same user returns the same key and creates nothing, whatever key it is offered. */
  lemma TokenIdempotent(tokens: TokenTable, user: UserId, key1: string, key2: string)
    ensures var g1 := GetOrCreateToken(tokens, user, key1);
            GetOrCreateToken(g1.tokens, user, key2) == TokenGrant(g1.tokens, g1.key, false)
  {
  }

  /** Storing a key no other user holds keeps token keys unique. */
  lemma TokenKeysStayUnique(tokens: TokenTable, user: UserId, freshKey: string)
    requires forall u, v :: u in tokens && v in tokens && u != v ==> tokens[u] != tokens[v]
    requires freshKey !in tokens.Values
    ensures var t := GetOrCreateToken(tokens, user, freshKey).tokens;
            forall u, v :: u in t && v in t && u != v ==> t[u] != t[v]
  {
    var t := GetOrCreateToken(tokens, user, freshKey).tokens;
    forall u, v | u in t && v in t && u != v ensures t[u] != t[v] {
      if u != user && v != user {
        assert t[u] == tokens[u] && t[v] == tokens[v];
      } else if u == user && user !in tokens {
        assert tokens[v] in tokens.Values;
      } else if v == user && user !in tokens {
        assert tokens[u] in tokens.Values;
      }
    }
  }

  /** When no two users share an email, login and the email check can never crash. */
  lemma UniqueEmailsNeverCrash(users: seq<User>, data: LoginData, checkPassword: (User, string) -> bool, email: Option<string>)
    requires UniqueBy(users, (u: User) => u.email)
    ensures !ValidateLogin(users, data, checkPassword).LoginCrashed?
    ensures !EmailCheck(users, email).EmailCrashed?
  {
    GetOnUniqueKey(users, (u: User) => u.email, data.email, HasEmail(data.email));
    if email.Some? {
      GetOnUniqueKey(users, (u: User) => u.email, email.value, HasEmail(email.value));
    }
  }

  lemma {:induction false} AppendNewEmail(users: seq<User>, account: User)
    requires !EmailExists(users, account.email)
    ensures Get(users + [account], HasEmail(account.email)) == OneRow(account)
  {
    FilterAppend(users, [account], HasEmail(account.email));
    assert Filter([account], HasEmail(account.email)) == [account];
  }

  /** Right after a registration, logging in with the same email and password yields the new account. */
  lemma LoginAfterRegistration(users: seq<User>, id: UserId, data: RegistrationData, checkPassword: (User, string) -> bool)
    requires RegistrationOutcome(users, id, data).Saved?
    requires checkPassword(NewAccount(id, data), data.password)
    ensures ValidateLogin(users + [NewAccount(id, data)], LoginData(data.email.value, data.password), checkPassword)
         == LoggedIn(ValidatedLogin(data.email.value, data.password, NewAccount(id, data)))
  {
    AppendNewEmail(users, NewAccount(id, data));
  }

  /** Right after a registration with a plausible email, the email check finds the account and its full name. */
  lemma EmailCheckAfterRegistration(users: seq<User>, id: UserId, data: RegistrationData)
    requires RegistrationOutcome(users, id, data).Saved?
    requires PlausibleEmail(data.email.value)
    ensures EmailCheck(users + [NewAccount(id, data)], data.email) == UserFound(id, data.email.value, data.fullname)
  {
    AppendNewEmail(users, NewAccount(id, data));
  }
}
