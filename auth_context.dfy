/** The local sign-in stub (src/contexts/AuthContext.tsx): accounts kept as a list in storage under
    `users`, the signed-in user kept under `user`, and a notification after each action. */
module AuthContext {
  import opened Common
  import opened Storage

  datatype User = User(id: string, name: string, email: string)

  /** A stored account: a user together with its password. */
  datatype Account = Account(id: string, name: string, email: string, password: string)

  datatype NotificationKind = Success | Error | Info

  datatype Notification = Notification(message: string, kind: NotificationKind)

  const LoginSucceeded: string := "Вы успешно вошли в аккаунт"
  const LoginFailed: string := "Неверный email или пароль"
  const EmailTaken: string := "Пользователь с таким email уже существует"
  const Registered: string := "Вы успешно зарегистрировались"
  const LoggedOut: string := "Вы успешно вышли из аккаунта"

  /** Everything the provider holds or touches: its three state fields and the two storage keys. */
  datatype AuthState = AuthState(
    user: Option<User>,
    isAuthenticated: bool,
    notification: Option<Notification>,
    storedUser: Option<Slot<User>>,
    storedUsers: Option<Slot<seq<Account>>>)

  /** The session fields agree: signed in exactly when there is a user. */
  predicate Valid(s: AuthState)
  {
    s.isAuthenticated <==> s.user.Some?
  }

  /** The accounts as `login` and `register` read them: a parsed list, or `[]` when the key is
      missing, empty or unparseable. */
  function StoredAccounts(stored: Option<Slot<seq<Account>>>): seq<Account>
  {
    match stored
    case Some(Parsed(users)) => users
    case _ => []
  }

  /** `users.find(u => u.email === email && u.password === password)`. */
  function FindAccount(users: seq<Account>, email: string, password: string): (r: Option<Account>)
    ensures r.None? <==> forall i :: 0 <= i < |users| ==> users[i].email != email || users[i].password != password
    ensures r.Some? ==> r.value in users && r.value.email == email && r.value.password == password
    ensures r.Some? ==>
              exists k :: 0 <= k < |users| && users[k] == r.value
                && forall j :: 0 <= j < k ==> users[j].email != email || users[j].password != password
  {
    if users == [] then None
    else if users[0].email == email && users[0].password == password then Some(users[0])
    else
      var r := FindAccount(users[1..], email, password);
      assert forall i :: 0 <= i < |users[1..]| ==> users[1..][i] == users[i + 1];
      r
  }

  /** `users.find(u => u.email === email)`. */
  function FindByEmail(users: seq<Account>, email: string): (r: Option<Account>)
    ensures r.None? <==> forall i :: 0 <= i < |users| ==> users[i].email != email
    ensures r.Some? ==> r.value in users && r.value.email == email
    ensures r.Some? ==>
              exists k :: 0 <= k < |users| && users[k] == r.value
                && forall j :: 0 <= j < k ==> users[j].email != email
  {
    if users == [] then None
    else if users[0].email == email then Some(users[0])
    else
      var r := FindByEmail(users[1..], email);
      assert forall i :: 0 <= i < |users[1..]| ==> users[1..][i] == users[i + 1];
      r
  }

  /** The account without its password. */
  function WithoutPassword(a: Account): User
  {
    User(a.id, a.name, a.email)
  }

  /** No two stored accounts share an email. */
  ghost predicate UniqueEmails(users: seq<Account>)
  {
    forall i, j :: 0 <= i < j < |users| ==> users[i].email != users[j].email
  }

  /** The mount effect: a parsed stored user restores the session; an unparseable one is removed and
      the visitor stays a guest; a missing or empty one leaves the guest state. */
  function Restore(storedUser: Option<Slot<User>>, storedUsers: Option<Slot<seq<Account>>>): (s: AuthState)
    ensures Valid(s) && s.notification.None? && s.storedUsers == storedUsers
    ensures s.isAuthenticated <==> storedUser.Some? && storedUser.value.Parsed?
    ensures s.storedUser == if storedUser == Some(Unparseable) then None else storedUser
    ensures storedUser.Some? && storedUser.value.Parsed? ==> s.user == Some(storedUser.value.value)
  {
    match storedUser
    case Some(Parsed(u)) => AuthState(Some(u), true, None, storedUser, storedUsers)
    case Some(Unparseable) => AuthState(None, false, None, None, storedUsers)
    case _ => AuthState(None, false, None, storedUser, storedUsers)
  }

  /** `login(email, password)`. */
  function LoginStep(s: AuthState, email: string, password: string): AuthState
  {
    match FindAccount(StoredAccounts(s.storedUsers), email, password)
    case Some(found) =>
      s.(user := Some(WithoutPassword(found)), isAuthenticated := true,
         storedUser := Some(Parsed(WithoutPassword(found))),
         notification := Some(Notification(LoginSucceeded, Success)))
    case None =>
      s.(notification := Some(Notification(LoginFailed, Error)))
  }

  /** `register(name, email, password)`, with the new account's id (taken from the clock in the
      source) as a parameter. */
  function RegisterStep(s: AuthState, name: string, email: string, password: string, newId: string): AuthState
  {
    var users := StoredAccounts(s.storedUsers);
    if FindByEmail(users, email).Some? then
      s.(notification := Some(Notification(EmailTaken, Error)))
    else
      var account := Account(newId, name, email, password);
      s.(storedUsers := Some(Parsed(users + [account])),
         user := Some(WithoutPassword(account)), isAuthenticated := true,
         storedUser := Some(Parsed(WithoutPassword(account))),
         notification := Some(Notification(Registered, Success)))
  }

  /** `logout()`. */
  function LogoutStep(s: AuthState): AuthState
  {
    s.(user := None, isAuthenticated := false, storedUser := None,
       notification := Some(Notification(LoggedOut, Info)))
  }

  /** A login succeeds exactly when some stored account has that email and that password; on success
      the session is that account without its password, and it is what the `user` key holds. */
  lemma LoginSucceedsIff(s: AuthState, email: string, password: string)
    ensures var t := LoginStep(s, email, password);
      var users := StoredAccounts(s.storedUsers);
      && (t.isAuthenticated && t.notification == Some(Notification(LoginSucceeded, Success))
          <==> exists i :: 0 <= i < |users| && users[i].email == email && users[i].password == password)
      && (t.notification.value.kind == Success ==>
            exists i :: 0 <= i < |users| && t.user == Some(WithoutPassword(users[i]))
                        && users[i].email == email && users[i].password == password
                        && t.storedUser == Some(Parsed(t.user.value))
                        && forall j :: 0 <= j < i ==> users[j].email != email || users[j].password != password)
  {
    var users := StoredAccounts(s.storedUsers);
    var found := FindAccount(users, email, password);
    if found.Some? {
      var i :| 0 <= i < |users| && users[i] == found.value
        && forall j :: 0 <= j < i ==> users[j].email != email || users[j].password != password;
    }
  }

  /** A failed login changes nothing but the notification: the session and the storage stay as
      they were. */
  lemma LoginFailureKeepsSession(s: AuthState, email: string, password: string)
    requires forall a :: a in StoredAccounts(s.storedUsers) ==> a.email != email || a.password != password
    ensures LoginStep(s, email, password) == s.(notification := Some(Notification(LoginFailed, Error)))
  {
    var users := StoredAccounts(s.storedUsers);
    assert forall i :: 0 <= i < |users| ==> users[i] in users;
  }

  /** Registering with an email already on record changes neither the accounts nor the session. */
  lemma RegisterTakenEmail(s: AuthState, name: string, email: string, password: string, newId: string)
    requires exists a :: a in StoredAccounts(s.storedUsers) && a.email == email
    ensures var t := RegisterStep(s, name, email, password, newId);
      t.storedUsers == s.storedUsers && t.user == s.user && t.isAuthenticated == s.isAuthenticated
      && t.storedUser == s.storedUser && t.notification == Some(Notification(EmailTaken, Error))
  {
    var users := StoredAccounts(s.storedUsers);
    var a :| a in users && a.email == email;
    var i :| 0 <= i < |users| && users[i] == a;
  }

  /** Registering with a new email appends exactly one account, signs it in, and keeps emails
      unique. Unreadable stored accounts count as none, so they are replaced by a one-element list. */
  lemma RegisterNewEmail(s: AuthState, name: string, email: string, password: string, newId: string)
    requires forall a :: a in StoredAccounts(s.storedUsers) ==> a.email != email
    ensures var t := RegisterStep(s, name, email, password, newId);
      && StoredAccounts(t.storedUsers) == StoredAccounts(s.storedUsers) + [Account(newId, name, email, password)]
      && t.user == Some(User(newId, name, email)) && t.isAuthenticated
      && t.storedUser == Some(Parsed(User(newId, name, email)))
      && (UniqueEmails(StoredAccounts(s.storedUsers)) ==> UniqueEmails(StoredAccounts(t.storedUsers)))
  {
    var users := StoredAccounts(s.storedUsers);
    assert forall i :: 0 <= i < |users| ==> users[i] in users;
    var t := RegisterStep(s, name, email, password, newId);
    var after := users + [Account(newId, name, email, password)];
    assert StoredAccounts(t.storedUsers) == after;
    if UniqueEmails(users) {
      forall i, j | 0 <= i < j < |after| ensures after[i].email != after[j].email {
        assert after[i] == users[i];
        if j < |users| {
          assert after[j] == users[j];
        }
      }
    }
  }

  /** Once registered, the same email and password sign in, as the account just created. */
  lemma RegisterThenLogin(s: AuthState, name: string, email: string, password: string, newId: string)
    requires forall a :: a in StoredAccounts(s.storedUsers) ==> a.email != email
    ensures var t := LoginStep(RegisterStep(s, name, email, password, newId), email, password);
      t.isAuthenticated && t.user == Some(User(newId, name, email))
  {
    var users := StoredAccounts(s.storedUsers);
    assert forall i :: 0 <= i < |users| ==> users[i] in users;
    RegisterNewEmail(s, name, email, password, newId);
    var after := users + [Account(newId, name, email, password)];
    assert FindAccount(after, email, password) == Some(Account(newId, name, email, password)) by {
      FindAccountAppend(users, Account(newId, name, email, password));
    }
  }

  /** Searching a list with no account of that email, extended by one that matches, finds the new
      one. */
  lemma {:induction false} FindAccountAppend(users: seq<Account>, a: Account)
    requires forall i :: 0 <= i < |users| ==> users[i].email != a.email
    ensures FindAccount(users + [a], a.email, a.password) == Some(a)
  {
    if users == [] {
      assert users + [a] == [a];
    } else {
      assert (users + [a])[1..] == users[1..] + [a];
      assert forall i :: 0 <= i < |users[1..]| ==> users[1..][i] == users[i + 1];
      FindAccountAppend(users[1..], a);
    }
  }

  /** Logging out clears the session and the `user` key, and leaves the accounts alone. */
  lemma LogoutClears(s: AuthState)
    ensures var t := LogoutStep(s);
      t.user.None? && !t.isAuthenticated && t.storedUser.None? && t.storedUsers == s.storedUsers
      && Valid(t)
  {
  }

  /** The session survives a reload: remounting from what login, register or logout left in storage
      gives back the same user. */
  lemma SessionSurvivesReload(s: AuthState, email: string, password: string, name: string, newId: string)
    requires Valid(s)
    ensures var t := LoginStep(s, email, password);
      t.storedUser == s.storedUser || Restore(t.storedUser, t.storedUsers).user == t.user
    ensures var t := RegisterStep(s, name, email, password, newId);
      t.storedUser == s.storedUser || Restore(t.storedUser, t.storedUsers).user == t.user
    ensures var t := LogoutStep(s);
      Restore(t.storedUser, t.storedUsers).user == t.user
  {
  }

  /** Every step keeps the session fields in agreement. */
  lemma StepsKeepValid(s: AuthState, email: string, password: string, name: string, newId: string)
    requires Valid(s)
    ensures Valid(LoginStep(s, email, password))
    ensures Valid(RegisterStep(s, name, email, password, newId))
    ensures Valid(LogoutStep(s))
  {
  }

  /** The provider's state and the two storage keys it uses. */
  class AuthService {
    var user: Option<User>
    var isAuthenticated: bool
    var notification: Option<Notification>
    var storedUser: Option<Slot<User>>
    var storedUsers: Option<Slot<seq<Account>>>

    function State(): AuthState
      reads this
    {
      AuthState(user, isAuthenticated, notification, storedUser, storedUsers)
    }

    /** Mounting the provider restores the session from storage. */
    constructor(storedUser: Option<Slot<User>>, storedUsers: Option<Slot<seq<Account>>>)
      ensures State() == Restore(storedUser, storedUsers)
      ensures Valid(State())
    {
      user := None;
      isAuthenticated := false;
      notification := None;
      this.storedUser := storedUser;
      this.storedUsers := storedUsers;
      match storedUser {
        case Some(Parsed(u)) =>
          user := Some(u);
          isAuthenticated := true;
        case Some(Unparseable) =>
          this.storedUser := None;
        case Some(Blank) =>
        case None =>
      }
    }

    method Login(email: string, password: string)
      modifies this
      ensures State() == LoginStep(old(State()), email, password)
    {
      var users := StoredAccounts(storedUsers);
      var found := FindAccount(users, email, password);
      if found.Some? {
        var signedIn := WithoutPassword(found.value);
        user := Some(signedIn);
        isAuthenticated := true;
        storedUser := Some(Parsed(signedIn));
        notification := Some(Notification(LoginSucceeded, Success));
      } else {
        notification := Some(Notification(LoginFailed, Error));
      }
    }

    method Register(name: string, email: string, password: string, newId: string)
      modifies this
      ensures State() == RegisterStep(old(State()), name, email, password, newId)
    {
      var users := StoredAccounts(storedUsers);
      if FindByEmail(users, email).Some? {
        notification := Some(Notification(EmailTaken, Error));
        return;
      }
      var account := Account(newId, name, email, password);
      users := users + [account];
      storedUsers := Some(Parsed(users));
      var signedIn := WithoutPassword(account);
      user := Some(signedIn);
      isAuthenticated := true;
      storedUser := Some(Parsed(signedIn));
      notification := Some(Notification(Registered, Success));
    }

    method Logout()
      modifies this
      ensures State() == LogoutStep(old(State()))
    {
      user := None;
      isAuthenticated := false;
      storedUser := None;
      notification := Some(Notification(LoggedOut, Info));
    }

    /** The notification timer firing: the notification is cleared. */
    method DismissNotification()
      modifies this`notification
      ensures State() == old(State()).(notification := None)
    {
      notification := None;
    }
  }
}
