/** The authentication store: the users and companies known to the platform and the current
    session, with role-scoped creation, listing and status updates. The three roles are admin,
    customer (a company's user) and driver. Every operation that needs a session first asks for
    the current one at `now`, which forgets a session that has expired. */
module Auth {
  import opened Types

  /** 8 hours, the lifetime of a session. */
  const SessionLifetimeMs: int := 8 * 60 * 60 * 1000

  datatype AuthError =
    | NotAuthenticated | OnlyAdminsCreateCompanies | CustomersOnlyCreateDrivers
    | OwnCompanyOnly | DriversCannotCreateUsers | UsernameExists | EmailExists
    | OnlyAdminsViewAllCompanies | OtherCompanyUser | DriversCannotUpdateUsers
  {
    function Message(): string {
      match this
      case NotAuthenticated => "Not authenticated"
      case OnlyAdminsCreateCompanies => "Only Admins can create companies"
      case CustomersOnlyCreateDrivers => "Customers can only create drivers"
      case OwnCompanyOnly => "Customers can only create users for their own company"
      case DriversCannotCreateUsers => "Drivers cannot create users"
      case UsernameExists => "Username already exists"
      case EmailExists => "Email already exists"
      case OnlyAdminsViewAllCompanies => "Only Admins can view all companies"
      case OtherCompanyUser => "Cannot update users from other companies"
      case DriversCannotUpdateUsers => "Drivers cannot update users"
    }
  }

  /** The index of the first element satisfying `p`, as `Array.prototype.find` locates it. */
  function FindFirst<T>(xs: seq<T>, p: T -> bool): (r: Option<nat>)
    ensures r.Some? ==> r.value < |xs| && p(xs[r.value])
    ensures r.Some? ==> forall j :: 0 <= j < r.value ==> !p(xs[j])
    ensures r.None? <==> forall j :: 0 <= j < |xs| ==> !p(xs[j])
    decreases |xs|
  {
    if xs == [] then None
    else if p(xs[0]) then Some(0)
    else
      var rest := FindFirst(xs[1..], p);
      if rest.None? then None else Some(rest.value + 1)
  }

  // ---------------------------------------------------------------- roles

  function RoleRank(role: UserRole): nat {
    match role
    case Admin => 3
    case CustomerRole => 2
    case Driver => 1
  }

  /** `hasPermission`: a role holds every role ranked at or below it. */
  predicate HasPermission(role: UserRole, requiredRole: UserRole) {
    RoleRank(role) >= RoleRank(requiredRole)
  }

  /** The role hierarchy is a total order with the admin at the top and the driver at the
      bottom. */
  lemma RoleHierarchy(a: UserRole, b: UserRole, c: UserRole)
    ensures HasPermission(a, a)
    ensures HasPermission(a, b) && HasPermission(b, c) ==> HasPermission(a, c)
    ensures HasPermission(a, b) && HasPermission(b, a) ==> a == b
    ensures HasPermission(a, b) || HasPermission(b, a)
    ensures HasPermission(Admin, a) && HasPermission(a, Driver)
  {
  }

  // ---------------------------------------------------------------- sessions

  /** The session `getCurrentSession` finds at `now`: only one that has not yet expired. */
  function LiveSession(session: Option<AuthSession>, now: int): (s: Option<AuthSession>)
    ensures s.Some? <==> session.Some? && session.value.expiresAt > now
    ensures s.Some? ==> s == session
  {
    if session.Some? && session.value.expiresAt > now then session else None
  }

  /** The session `login` opens: for the first active user with that name, with that user's
      company when the user has one; none when no active user has that name. */
  function LoginSession(users: seq<User>, companies: seq<Company>, username: string,
                        token: string, now: int): (s: Option<AuthSession>)
    ensures s.None? <==> forall j :: 0 <= j < |users| ==> !(users[j].username == username && users[j].isActive)
    ensures s.Some? ==>
              && s.value.user in users && s.value.user.username == username && s.value.user.isActive
              && s.value.token == token && s.value.expiresAt == now + SessionLifetimeMs
              && (s.value.company.Some? ==>
                    s.value.company.value in companies
                    && Some(s.value.company.value.id) == s.value.user.companyId)
    ensures s.Some? ==>
              exists i :: 0 <= i < |users| && users[i] == s.value.user
                          && forall j :: 0 <= j < i ==> !(users[j].username == username && users[j].isActive)
    ensures s.Some? ==>
              (s.value.company.Some? <==>
                 TruthyString(s.value.user.companyId)
                 && exists k :: 0 <= k < |companies| && companies[k].id == s.value.user.companyId.value)
    ensures s.Some? && s.value.company.Some? ==>
              exists k :: 0 <= k < |companies| && companies[k] == s.value.company.value
                          && forall j :: 0 <= j < k ==> companies[j].id != s.value.company.value.id
  {
    var i := FindFirst(users, (u: User) => u.username == username && u.isActive);
    if i.None? then None
    else
      var user := users[i.value];
      var company :=
        if TruthyString(user.companyId)
        then
          var k := FindFirst(companies, (c: Company) => c.id == user.companyId.value);
          if k.Some? then Some(companies[k.value]) else None
        else None;
      Some(AuthSession(user, company, token, now + SessionLifetimeMs))
  }

  /** A session opened at `now` is live for exactly the next eight hours. */
  lemma SessionLifetime(users: seq<User>, companies: seq<Company>, username: string,
                        token: string, now: int, t: int)
    requires LoginSession(users, companies, username, token, now).Some?
    ensures var s := LoginSession(users, companies, username, token, now);
            LiveSession(s, t).Some? <==> t < now + SessionLifetimeMs
  {
  }

  // ---------------------------------------------------------------- users

  /** No two users share a username or an email address. */
  predicate UniqueCredentials(users: seq<User>) {
    forall i, j :: 0 <= i < j < |users| ==>
      users[i].username != users[j].username && users[i].email != users[j].email
  }

  /** The error `createUser` raises, if any, for the creator's session. */
  function CreateUserError(session: Option<AuthSession>, users: seq<User>, username: string,
                           email: string, role: UserRole, companyId: Option<string>)
    : Option<AuthError>
  {
    if session.None? then Some(NotAuthenticated)
    else if session.value.user.role == CustomerRole && role != Driver
    then Some(CustomersOnlyCreateDrivers)
    else if session.value.user.role == CustomerRole && companyId != session.value.user.companyId
    then Some(OwnCompanyOnly)
    else if session.value.user.role == Driver then Some(DriversCannotCreateUsers)
    else if FindFirst(users, (u: User) => u.username == username).Some? then Some(UsernameExists)
    else if FindFirst(users, (u: User) => u.email == email).Some? then Some(EmailExists)
    else None
  }

  /** Who may create whom: an admin anyone, a customer only drivers of their own company, a
      driver nobody; and nobody a user whose username or email is taken. */
  lemma CreateUserRules(session: Option<AuthSession>, users: seq<User>, username: string,
                        email: string, role: UserRole, companyId: Option<string>)
    ensures session.None? ==> CreateUserError(session, users, username, email, role, companyId)
                              == Some(NotAuthenticated)
    ensures session.Some? && session.value.user.role == Driver ==>
              CreateUserError(session, users, username, email, role, companyId).Some?
    ensures session.Some? && session.value.user.role == CustomerRole
            && CreateUserError(session, users, username, email, role, companyId).None? ==>
              role == Driver && companyId == session.value.user.companyId
    ensures CreateUserError(session, users, username, email, role, companyId).None? <==>
              && session.Some? && session.value.user.role != Driver
              && (session.value.user.role == CustomerRole ==>
                    role == Driver && companyId == session.value.user.companyId)
              && (forall j :: 0 <= j < |users| ==> users[j].username != username)
              && (forall j :: 0 <= j < |users| ==> users[j].email != email)
  {
  }

  function NewUser(id: string, username: string, email: string, role: UserRole,
                   firstName: string, lastName: string, companyId: Option<string>,
                   now: int): User {
    User(id, username, email, role, companyId, firstName, lastName, true, now, now)
  }

  /** Appending a user whose credentials are free keeps the credentials unique. */
  lemma AppendKeepsCredentialsUnique(users: seq<User>, u: User)
    requires UniqueCredentials(users)
    requires forall j :: 0 <= j < |users| ==> users[j].username != u.username
    requires forall j :: 0 <= j < |users| ==> users[j].email != u.email
    ensures UniqueCredentials(users + [u])
  {
    var r := users + [u];
    forall i, j | 0 <= i < j < |r|
      ensures r[i].username != r[j].username && r[i].email != r[j].email
    {
      assert r[i] == users[i];
    }
  }

  /** The administrator may create a customer or a driver without a company, although such users
      are documented as always having one: `createUser` does not check it. */
  lemma CompanyRuleNotEnforced(session: AuthSession, users: seq<User>, username: string,
                               email: string)
    requires session.user.role == Admin
    requires forall j :: 0 <= j < |users| ==> users[j].username != username && users[j].email != email
    ensures CreateUserError(Some(session), users, username, email, CustomerRole, None).None?
  {
    CreateUserRules(Some(session), users, username, email, CustomerRole, None);
  }

  /** The users with the given company, in store order (`companyId === ...`, where two absent
      company ids are equal). */
  function UsersOfCompany(users: seq<User>, companyId: Option<string>): (r: seq<User>)
    ensures |r| <= |users|
    ensures forall u :: u in r <==> u in users && u.companyId == companyId
    decreases |users|
  {
    if users == [] then []
    else
      var rest := UsersOfCompany(users[1..], companyId);
      assert forall u :: u in users <==> u == users[0] || u in users[1..];
      if users[0].companyId == companyId then [users[0]] + rest else rest
  }

  /** Filtering keeps store order: the users of a concatenation are the users of each part, one
      part after the other. */
  lemma {:induction false} UsersOfCompanyAppend(a: seq<User>, b: seq<User>, companyId: Option<string>)
    ensures UsersOfCompany(a + b, companyId) == UsersOfCompany(a, companyId) + UsersOfCompany(b, companyId)
    decreases |a|
  {
    if a == [] {
      assert a + b == b;
    } else {
      UsersOfCompanyAppend(a[1..], b, companyId);
      UsersOfCompanyUnfoldAppend(a, b, companyId);
      UsersOfCompanyUnfold(a, companyId);
      ConcatAssociative(UsersOfCompany([a[0]], companyId), UsersOfCompany(a[1..], companyId),
                        UsersOfCompany(b, companyId));
    }
  }

  lemma ConcatAssociative<T>(x: seq<T>, y: seq<T>, z: seq<T>)
    ensures x + (y + z) == (x + y) + z
  {
  }

  /** One step of the filter on a concatenation whose first part is not empty. */
  lemma UsersOfCompanyUnfoldAppend(a: seq<User>, b: seq<User>, companyId: Option<string>)
    requires a != []
    ensures UsersOfCompany(a + b, companyId)
            == UsersOfCompany([a[0]], companyId) + UsersOfCompany(a[1..] + b, companyId)
  {
    var ab := a + b;
    assert ab[0] == a[0] && ab[1..] == a[1..] + b;
    UsersOfCompanyUnfold(ab, companyId);
  }

  /** One step of the filter: the head's own result, then the rest's. */
  lemma UsersOfCompanyUnfold(users: seq<User>, companyId: Option<string>)
    requires users != []
    ensures UsersOfCompany(users, companyId)
            == UsersOfCompany([users[0]], companyId) + UsersOfCompany(users[1..], companyId)
  {
    UsersOfCompanySingle(users[0], companyId);
  }

  /** A single user is kept exactly when its company matches. */
  lemma UsersOfCompanySingle(u: User, companyId: Option<string>)
    ensures UsersOfCompany([u], companyId) == if u.companyId == companyId then [u] else []
  {
    assert [u][1..] == [];
  }

  /** The user list `getUsers` returns for the session's user. */
  function VisibleUsers(viewer: User, users: seq<User>): (r: seq<User>)
    ensures viewer.role == Admin ==> r == users
    ensures viewer.role == CustomerRole ==>
              forall u :: u in r <==> u in users && u.companyId == viewer.companyId
    ensures viewer.role == Driver ==> r == []
  {
    match viewer.role
    case Admin => users
    case CustomerRole => UsersOfCompany(users, viewer.companyId)
    case Driver => []
  }

  /** What `updateUserStatus` decides before changing anything: an error, no such user
      (`Success(None)`), or the index of the user to change. */
  function StatusUpdateTarget(session: Option<AuthSession>, users: seq<User>, userId: string)
    : (r: Result<Option<nat>, AuthError>)
    ensures r.Success? && r.value.Some? ==> r.value.value < |users| && users[r.value.value].id == userId
    ensures r.Success? && r.value.Some? ==> forall j :: 0 <= j < r.value.value ==> users[j].id != userId
  {
    if session.None? then Failure(NotAuthenticated)
    else
      var i := FindFirst(users, (u: User) => u.id == userId);
      if i.None? then Success(None)
      else if session.value.user.role == CustomerRole
              && users[i.value].companyId != session.value.user.companyId
      then Failure(OtherCompanyUser)
      else if session.value.user.role == Driver then Failure(DriversCannotUpdateUsers)
      else Success(Some(i.value))
  }

  /** An unknown id changes nobody; a driver changes nobody; a customer changes only users of
      their own company; an admin may change any user. */
  lemma StatusUpdateRules(session: Option<AuthSession>, users: seq<User>, userId: string)
    ensures session.Some? && (forall j :: 0 <= j < |users| ==> users[j].id != userId) ==>
              StatusUpdateTarget(session, users, userId) == Success(None)
    ensures session.Some? && session.value.user.role == Driver ==>
              !(StatusUpdateTarget(session, users, userId).Success?
                && StatusUpdateTarget(session, users, userId).value.Some?)
    ensures session.Some? && session.value.user.role == CustomerRole
            && StatusUpdateTarget(session, users, userId).Success?
            && StatusUpdateTarget(session, users, userId).value.Some? ==>
              users[StatusUpdateTarget(session, users, userId).value.value].companyId
              == session.value.user.companyId
    ensures session.Some? && session.value.user.role == Admin
            && (exists j :: 0 <= j < |users| && users[j].id == userId) ==>
              StatusUpdateTarget(session, users, userId).Success?
              && StatusUpdateTarget(session, users, userId).value.Some?
  {
  }

  /** Changing a user's status leaves every credential, and so their uniqueness, as it was. */
  lemma StatusUpdateKeepsCredentials(users: seq<User>, i: nat, isActive: bool, now: int)
    requires i < |users| && UniqueCredentials(users)
    ensures UniqueCredentials(users[i := users[i].(isActive := isActive, updatedAt := now)])
  {
    var r := users[i := users[i].(isActive := isActive, updatedAt := now)];
    forall a, b | 0 <= a < b < |r|
      ensures r[a].username != r[b].username && r[a].email != r[b].email
    {
      assert r[a].username == users[a].username && r[a].email == users[a].email;
      assert r[b].username == users[b].username && r[b].email == users[b].email;
    }
  }

  // ---------------------------------------------------------------- seed data

  function SeedCompanies(now: int): seq<Company> {
    [ Company("company-wmnz-001", "Waste Management NZ Ltd", Some("NZ123456789"),
              "accounts@wmnz.co.nz", "+64 4 123 4567",
              Some("123 Waste Lane, Wellington, New Zealand"), true, now, now),
      Company("company-env-001", "EnviroNZ Limited", Some("NZ987654321"),
              "info@environz.co.nz", "+64 9 765 4321",
              Some("456 Green Street, Auckland, New Zealand"), true, now, now) ]
  }

  function SeedUsers(now: int): seq<User> {
    [ User("user-admin-001", "admin", "admin@brrp.io", Admin, None,
           "System", "Administrator", true, now, now),
      User("user-customer-wmnz-001", "wmnz_customer", "customer@wmnz.co.nz", CustomerRole,
           Some("company-wmnz-001"), "John", "Smith", true, now, now),
      User("user-driver-001", "driver1", "driver1@wmnz.co.nz", Driver,
           Some("company-wmnz-001"), "Mike", "Johnson", true, now, now) ]
  }

  /** The documented rule: an admin has no company, a customer or a driver has one. */
  predicate CompanyRule(u: User) {
    u.role == Admin <==> u.companyId.None?
  }

  /** The seed users have unique credentials, follow the company rule, and belong to companies
      that exist. */
  lemma SeedFacts(now: int)
    ensures UniqueCredentials(SeedUsers(now))
    ensures forall i :: 0 <= i < 3 ==> CompanyRule(SeedUsers(now)[i])
    ensures forall i :: 0 <= i < 3 && SeedUsers(now)[i].companyId.Some? ==>
              SeedUsers(now)[i].companyId.value == SeedCompanies(now)[0].id
  {
    var us := SeedUsers(now);
    // the usernames, and the email addresses, already differ in their first characters
    assert us[0].username[0] != us[1].username[0] && us[0].email[0] != us[1].email[0];
    assert us[0].username[0] != us[2].username[0] && us[0].email[0] != us[2].email[0];
    assert us[1].username[0] != us[2].username[0] && us[1].email[0] != us[2].email[0];
  }

  // ---------------------------------------------------------------- the store

  class AuthStore {
    var users: seq<User>
    var companies: seq<Company>
    var currentSession: Option<AuthSession>

    /** A store as `initialize` leaves it at instant `now`, with nobody logged in. */
    constructor(now: int)
      ensures users == SeedUsers(now) && companies == SeedCompanies(now)
      ensures currentSession.None?
    {
      users := SeedUsers(now);
      companies := SeedCompanies(now);
      currentSession := None;
    }

    /** `initialize`: resets the users and companies; any session is kept. */
    method Initialize(now: int)
      modifies this
      ensures users == SeedUsers(now) && companies == SeedCompanies(now)
      ensures currentSession == old(currentSession)
    {
      users := SeedUsers(now);
      companies := SeedCompanies(now);
    }

    /** `login`: any password is accepted. A failed login leaves the current session alone. */
    method Login(username: string, password: string, token: string, now: int)
      returns (s: Option<AuthSession>)
      modifies this
      ensures s == LoginSession(users, companies, username, token, now)
      ensures s.Some? ==> currentSession == s
      ensures s.None? ==> currentSession == old(currentSession)
      ensures users == old(users) && companies == old(companies)
    {
      s := LoginSession(users, companies, username, token, now);
      if s.Some? {
        currentSession := s;
      }
    }

    /** `logout`. */
    method Logout()
      modifies this
      ensures currentSession.None?
      ensures users == old(users) && companies == old(companies)
    {
      currentSession := None;
    }

    /** `getCurrentSession` at `now`: an expired session is forgotten. */
    method GetCurrentSession(now: int) returns (s: Option<AuthSession>)
      modifies this
      ensures s == LiveSession(old(currentSession), now) && currentSession == s
      ensures users == old(users) && companies == old(companies)
    {
      if currentSession.Some? && currentSession.value.expiresAt > now {
        s := currentSession;
        return;
      }
      currentSession := None;
      s := None;
    }

    /** `createCompany`: admins only; the new company is active and appended. */
    method CreateCompany(name: string, contactEmail: string, contactPhone: string,
                         businessNumber: Option<string>, address: Option<string>,
                         id: string, now: int)
      returns (r: Result<Company, AuthError>)
      modifies this
      ensures currentSession == LiveSession(old(currentSession), now)
      ensures r.Failure? <==> currentSession.None? || currentSession.value.user.role != Admin
      ensures r.Failure? ==> r.error == OnlyAdminsCreateCompanies && companies == old(companies)
      ensures r.Success? ==>
                r.value == Company(id, name, businessNumber, contactEmail, contactPhone, address,
                                   true, now, now)
                && companies == old(companies) + [r.value]
      ensures users == old(users)
    {
      var session := GetCurrentSession(now);
      if session.None? || session.value.user.role != Admin {
        return Failure(OnlyAdminsCreateCompanies);
      }
      var company := Company(id, name, businessNumber, contactEmail, contactPhone, address,
                             true, now, now);
      companies := companies + [company];
      r := Success(company);
    }

    /** `createUser`: on success exactly one active user is appended and nobody else changes;
        on failure nothing changes. Unique credentials stay unique. */
    method CreateUser(username: string, email: string, role: UserRole, firstName: string,
                      lastName: string, companyId: Option<string>, id: string, now: int)
      returns (r: Result<User, AuthError>)
      modifies this
      ensures currentSession == LiveSession(old(currentSession), now)
      ensures var err := CreateUserError(currentSession, old(users), username, email, role,
                                         companyId);
              (err.Some? ==> r == Failure(err.value) && users == old(users))
              && (err.None? ==>
                    r == Success(NewUser(id, username, email, role, firstName, lastName,
                                         companyId, now))
                    && users == old(users) + [r.value])
      ensures UniqueCredentials(old(users)) ==> UniqueCredentials(users)
      ensures companies == old(companies)
    {
      var session := GetCurrentSession(now);
      if session.None? {
        return Failure(NotAuthenticated);
      }
      if session.value.user.role == CustomerRole {
        if role != Driver {
          return Failure(CustomersOnlyCreateDrivers);
        }
        if companyId != session.value.user.companyId {
          return Failure(OwnCompanyOnly);
        }
      } else if session.value.user.role == Driver {
        return Failure(DriversCannotCreateUsers);
      }
      if FindFirst(users, (u: User) => u.username == username).Some? {
        return Failure(UsernameExists);
      }
      if FindFirst(users, (u: User) => u.email == email).Some? {
        return Failure(EmailExists);
      }
      var user := NewUser(id, username, email, role, firstName, lastName, companyId, now);
      CreateUserRules(session, users, username, email, role, companyId);
      if UniqueCredentials(users) {
        AppendKeepsCredentialsUnique(users, user);
      }
      users := users + [user];
      r := Success(user);
    }

    /** `getAllCompanies`: admins only. */
    method GetAllCompanies(now: int) returns (r: Result<seq<Company>, AuthError>)
      modifies this
      ensures currentSession == LiveSession(old(currentSession), now)
      ensures r.Failure? <==> currentSession.None? || currentSession.value.user.role != Admin
      ensures r.Failure? ==> r.error == OnlyAdminsViewAllCompanies
      ensures r.Success? ==> r.value == companies
      ensures users == old(users) && companies == old(companies)
    {
      var session := GetCurrentSession(now);
      if session.None? || session.value.user.role != Admin {
        return Failure(OnlyAdminsViewAllCompanies);
      }
      r := Success(companies);
    }

    /** `getUsers`: all users for an admin, the users of their company for a customer, none for
        a driver. */
    method GetUsers(now: int) returns (r: Result<seq<User>, AuthError>)
      modifies this
      ensures currentSession == LiveSession(old(currentSession), now)
      ensures r.Failure? <==> currentSession.None?
      ensures r.Failure? ==> r.error == NotAuthenticated
      ensures r.Success? ==> r.value == VisibleUsers(currentSession.value.user, users)
      ensures users == old(users) && companies == old(companies)
    {
      var session := GetCurrentSession(now);
      if session.None? {
        return Failure(NotAuthenticated);
      }
      var viewer := session.value.user;
      if viewer.role == Admin {
        r := Success(users);
      } else if viewer.role == CustomerRole {
        r := Success(UsersOfCompany(users, viewer.companyId));
      } else {
        r := Success([]);
      }
    }

    /** `getCompanyById`. */
    function GetCompanyById(companyId: string): (c: Option<Company>)
      reads this
      ensures c.Some? ==> c.value in companies && c.value.id == companyId
      ensures c.None? <==> forall j :: 0 <= j < |companies| ==> companies[j].id != companyId
      ensures c.Some? ==>
                exists k :: 0 <= k < |companies| && companies[k] == c.value
                            && forall j :: 0 <= j < k ==> companies[j].id != companyId
    {
      var k := FindFirst(companies, (co: Company) => co.id == companyId);
      if k.Some? then Some(companies[k.value]) else None
    }

    /** `updateUserStatus`: `Success(false)` for an unknown id; on `Success(true)` only the
        target's `isActive` and `updatedAt` change. */
    method UpdateUserStatus(userId: string, isActive: bool, now: int)
      returns (r: Result<bool, AuthError>)
      modifies this
      ensures currentSession == LiveSession(old(currentSession), now)
      ensures var t := StatusUpdateTarget(currentSession, old(users), userId);
              && (t.Failure? ==> r == Failure(t.error) && users == old(users))
              && (t == Success(None) ==> r == Success(false) && users == old(users))
              && (t.Success? && t.value.Some? ==>
                    r == Success(true)
                    && users == old(users)[t.value.value := old(users)[t.value.value]
                                             .(isActive := isActive, updatedAt := now)])
      ensures UniqueCredentials(old(users)) ==> UniqueCredentials(users)
      ensures companies == old(companies)
    {
      var session := GetCurrentSession(now);
      if session.None? {
        return Failure(NotAuthenticated);
      }
      var i := FindFirst(users, (u: User) => u.id == userId);
      if i.None? {
        return Success(false);
      }
      if session.value.user.role == CustomerRole {
        if users[i.value].companyId != session.value.user.companyId {
          return Failure(OtherCompanyUser);
        }
      } else if session.value.user.role == Driver {
        return Failure(DriversCannotUpdateUsers);
      }
      if UniqueCredentials(users) {
        StatusUpdateKeepsCredentials(users, i.value, isActive, now);
      }
      users := users[i.value := users[i.value].(isActive := isActive, updatedAt := now)];
      r := Success(true);
    }
  }
}
