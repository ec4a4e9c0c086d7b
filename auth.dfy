/** The authentication service of lib/auth.ts. Its storage (the users list,
    the plaintext email-to-password map and the current-user record) is
    held in three fields; every operation is also given as a function on the
    abstract `Store`, which the methods are proved to follow. Generated ids
    and creation times are supplied by the caller. */
module Auth {
  import opened Wrappers

  datatype Role = Customer | Admin

  datatype User = User(id: string, email: string, name: string, role: Role, createdAt: int)

  const AdminEmail: string := "admin@luxecommerce.com"
  const AdminPassword: string := "admin123"

  const UserExists: string := "User already exists with this email"
  const UserNotFound: string := "User not found"
  const InvalidPassword: string := "Invalid password"

  /** The bootstrap administrator created on an empty store. */
  function AdminUser(now: int): User {
    User("admin-1", AdminEmail, "Admin User", Admin, now)
  }

  datatype Store = Store(users: seq<User>, passwords: map<string, string>, current: Option<User>)

  predicate UniqueEmails(users: seq<User>) {
    forall i, j :: 0 <= i < j < |users| ==> users[i].email != users[j].email
  }

  /** `users.find(u => u.email === email)`. */
  function FindByEmail(users: seq<User>, email: string): (r: Option<User>)
    ensures r.None? <==> forall i :: 0 <= i < |users| ==> users[i].email != email
    ensures r.Some? ==> exists i :: 0 <= i < |users| && users[i] == r.value &&
                          r.value.email == email && forall k :: 0 <= k < i ==> users[k].email != email
  {
    if users == [] then None
    else if users[0].email == email then Some(users[0])
    else
      var r := FindByEmail(users[1..], email);
      if r.Some? then
        ghost var i :| 0 <= i < |users[1..]| && users[1..][i] == r.value &&
                       forall k :: 0 <= k < i ==> users[1..][k].email != email;
        assert users[i + 1] == r.value;
        r
      else r
  }

  /** `initializeUsers`: on an empty users list, store the administrator and
      replace the password map by the administrator's entry. */
  function Initialized(s: Store, now: int): Store {
    if |s.users| == 0 then s.(users := [AdminUser(now)], passwords := map[AdminEmail := AdminPassword])
    else s
  }

  /** `register`, after its own call to `initializeUsers`. */
  function Registered(s: Store, email: string, password: string, name: string,
                      freshId: string, now: int): (Store, Result<User, string>) {
    var t := Initialized(s, now);
    if FindByEmail(t.users, email).Some? then (t, Failure(UserExists))
    else
      var u := User(freshId, email, name, Customer, now);
      (t.(users := t.users + [u], passwords := t.passwords[email := password]), Success(u))
  }

  /** The password check of `login`: a missing entry never matches. */
  predicate PasswordMatches(passwords: map<string, string>, email: string, password: string) {
    email in passwords && passwords[email] == password
  }

  /** `login`, after its own call to `initializeUsers`. */
  function LoggedIn(s: Store, email: string, password: string, now: int): (Store, Result<User, string>) {
    var t := Initialized(s, now);
    match FindByEmail(t.users, email)
    case None => (t, Failure(UserNotFound))
    case Some(u) =>
      if !PasswordMatches(t.passwords, email, password) then (t, Failure(InvalidPassword))
      else (t.(current := Some(u)), Success(u))
  }

  /** `getCurrentUser`, which also runs `initializeUsers`. */
  function CurrentUser(s: Store, now: int): (Store, Option<User>) {
    var t := Initialized(s, now);
    (t, t.current)
  }

  /** `logout`. */
  function LoggedOut(s: Store): Store {
    s.(current := None)
  }

  // ---------------------------------------------------------------- lemmas

  /** On an empty store the bootstrap seeds exactly the administrator and
      its password; otherwise it changes nothing. The current user is never
      touched. */
  lemma InitializeSpec(s: Store, now: int)
    ensures s.users == [] ==>
      Initialized(s, now).users == [AdminUser(now)] && Initialized(s, now).users[0].role == Admin &&
      Initialized(s, now).passwords == map[AdminEmail := AdminPassword]
    ensures s.users != [] ==> Initialized(s, now) == s
    ensures Initialized(s, now).current == s.current
    ensures Initialized(s, now).users != []
  {
  }

  /** A duplicate email is refused with "User already exists with this
      email", leaving users and passwords as the bootstrap left them. */
  lemma RegisterDuplicate(s: Store, email: string, password: string, name: string, freshId: string, now: int)
    requires exists i :: 0 <= i < |Initialized(s, now).users| && Initialized(s, now).users[i].email == email
    ensures Registered(s, email, password, name, freshId, now) == (Initialized(s, now), Failure(UserExists))
  {
  }

  /** A new email appends one customer and records its password; the
      current user is not set. */
  lemma RegisterSuccess(s: Store, email: string, password: string, name: string, freshId: string, now: int)
    requires forall i :: 0 <= i < |Initialized(s, now).users| ==> Initialized(s, now).users[i].email != email
    ensures var (t, r) := Registered(s, email, password, name, freshId, now);
      var u := User(freshId, email, name, Customer, now);
      r == Success(u) &&
      t.users == Initialized(s, now).users + [u] &&
      t.passwords == Initialized(s, now).passwords[email := password] &&
      t.current == s.current
  {
  }

  /** Registration, successful or not, keeps emails unique. */
  lemma RegisterKeepsUniqueEmails(s: Store, email: string, password: string, name: string, freshId: string, now: int)
    requires UniqueEmails(s.users)
    ensures UniqueEmails(Registered(s, email, password, name, freshId, now).0.users)
  {
    var t := Initialized(s, now);
    assert UniqueEmails(t.users);
    if FindByEmail(t.users, email).None? {
      var r := Registered(s, email, password, name, freshId, now).0.users;
      assert r == t.users + [User(freshId, email, name, Customer, now)];
      forall i, j | 0 <= i < j < |r| ensures r[i].email != r[j].email {
        if j == |t.users| {
          assert r[i] == t.users[i];
        }
      }
    }
  }

  /** Registering the same email twice fails the second time. */
  lemma RegisterTwiceFails(s: Store, email: string, p1: string, p2: string, n1: string, n2: string,
                           id1: string, id2: string, t1: int, t2: int)
    requires Registered(s, email, p1, n1, id1, t1).1.Success?
    ensures Registered(Registered(s, email, p1, n1, id1, t1).0, email, p2, n2, id2, t2).1 == Failure(UserExists)
  {
    var first := Registered(s, email, p1, n1, id1, t1).0;
    var u := User(id1, email, n1, Customer, t1);
    assert first.users[|first.users| - 1] == u;
    assert FindByEmail(Initialized(first, t2).users, email).Some?;
  }

  /** An unknown email fails with "User not found", a wrong or missing
      password with "Invalid password"; neither changes the current user. */
  lemma LoginFailures(s: Store, email: string, password: string, now: int)
    ensures var t := Initialized(s, now);
      var (s', r) := LoggedIn(s, email, password, now);
      (FindByEmail(t.users, email).None? ==> r == Failure(UserNotFound)) &&
      (FindByEmail(t.users, email).Some? && !PasswordMatches(t.passwords, email, password) ==>
        r == Failure(InvalidPassword)) &&
      (r.Failure? ==> s' == t && s'.current == s.current)
  {
  }

  /** A successful login makes the matching user current. */
  lemma LoginSuccess(s: Store, email: string, password: string, now: int)
    requires LoggedIn(s, email, password, now).1.Success?
    ensures var (s', r) := LoggedIn(s, email, password, now);
      r.value.email == email && r.value in s'.users &&
      PasswordMatches(s'.passwords, email, password) && s'.current == Some(r.value)
  {
  }

  /** After logout the current user is gone, so `getCurrentUser` reports none. */
  lemma LogoutClears(s: Store, now: int)
    ensures CurrentUser(LoggedOut(s), now).1 == None
  {
  }

  /** On an empty store the bootstrap credentials log in as the administrator. */
  lemma BootstrapAdminLogin(s: Store, now: int)
    requires s.users == []
    ensures LoggedIn(s, AdminEmail, AdminPassword, now).1 == Success(AdminUser(now))
  {
  }

  // ------------------------------------------------------------ the service

  /** `authService` with its storage. */
  class AuthService {
    var users: seq<User>
    var passwords: map<string, string>
    var current: Option<User>

    function State(): Store
      reads this
    {
      Store(users, passwords, current)
    }

    constructor (s: Store)
      ensures State() == s
    {
      users, passwords, current := s.users, s.passwords, s.current;
    }

    method InitializeUsers(now: int)
      modifies this
      ensures State() == Initialized(old(State()), now)
    {
      if |users| == 0 {
        users := [AdminUser(now)];
        passwords := map[AdminEmail := AdminPassword];
      }
    }

    method Register(email: string, password: string, name: string, freshId: string, now: int)
      returns (r: Result<User, string>)
      modifies this
      ensures (State(), r) == Registered(old(State()), email, password, name, freshId, now)
    {
      InitializeUsers(now);
      if FindByEmail(users, email).Some? {
        return Failure(UserExists);
      }
      var u := User(freshId, email, name, Customer, now);
      users := users + [u];
      passwords := passwords[email := password];
      return Success(u);
    }

    method Login(email: string, password: string, now: int) returns (r: Result<User, string>)
      modifies this
      ensures (State(), r) == LoggedIn(old(State()), email, password, now)
    {
      InitializeUsers(now);
      var found := FindByEmail(users, email);
      if found.None? {
        return Failure(UserNotFound);
      }
      if !PasswordMatches(passwords, email, password) {
        return Failure(InvalidPassword);
      }
      current := found;
      return Success(found.value);
    }

    method GetCurrentUser(now: int) returns (u: Option<User>)
      modifies this
      ensures (State(), u) == CurrentUser(old(State()), now)
    {
      InitializeUsers(now);
      u := current;
    }

    method Logout()
      modifies this
      ensures State() == LoggedOut(old(State()))
    {
      current := None;
    }
  }
}
