/** The browser-side session of the mock authentication: a provider holding
    the signed-in user, or none. */
module AuthContext {
  import opened Wrappers
  import Strings

  /** `'admin' | 'user'`. */
  datatype UserRole = Admin | Regular

  datatype User = User(id: string, username: string, role: UserRole)

  predicate Matches(u: User, username: string, role: UserRole)
  {
    u.username == username && u.role == role
  }

  /** `users.find(u => u.username === username && u.role === role)`: the first
      user with that name and role, if any. */
  function FindUser(users: seq<User>, username: string, role: UserRole): (r: Option<User>)
    ensures r.None? <==> forall i :: 0 <= i < |users| ==> !Matches(users[i], username, role)
    ensures r.Some? ==> exists i :: 0 <= i < |users| && users[i] == r.value && Matches(r.value, username, role)
                          && forall j :: 0 <= j < i ==> !Matches(users[j], username, role)
  {
    if users == [] then None
    else if Matches(users[0], username, role) then Some(users[0])
    else
      var r := FindUser(users[1..], username, role);
      assert forall j :: 1 <= j < |users| ==> users[j] == users[1..][j - 1];
      r
  }

  /** The credentials `login` accepts: a non-empty name and a password of at
      least four characters. */
  predicate Accepted(username: string, password: string)
  {
    username != [] && |password| >= 4
  }

  /** The session `login` opens: the matching mock user, or a new user whose id
      is the clock reading `Date.now()` written in decimal. */
  function SessionUser(users: seq<User>, username: string, role: UserRole, now: nat): (u: User)
    ensures Matches(u, username, role)
    ensures FindUser(users, username, role).None? ==> u.id == Strings.NatToString(now)
  {
    match FindUser(users, username, role)
    case Some(existing) => existing
    case None => User(Strings.NatToString(now), username, role)
  }

  class AuthProvider {
    /** `useState<User | null>`. */
    var user: Option<User>
    /** The mock user table the provider looks names up in. */
    const mockUsers: seq<User>

    constructor (mockUsers: seq<User>)
      ensures user == None && this.mockUsers == mockUsers
    {
      this.mockUsers := mockUsers;
      user := None;
    }

    /** `login`: accepted credentials open a session for the requested name and
      role; rejected ones leave the session as it was. */
    method Login(username: string, password: string, role: UserRole, now: nat) returns (ok: bool)
      modifies this
      ensures ok <==> Accepted(username, password)
      ensures ok ==> user == Some(SessionUser(mockUsers, username, role, now))
      ensures !ok ==> user == old(user)
    {
      if username != [] && |password| >= 4 {
        var existingUser := FindUser(mockUsers, username, role);
        if existingUser.Some? {
          user := existingUser;
        } else {
          user := Some(User(Strings.NatToString(now), username, role));
        }
        return true;
      }
      return false;
    }

    /** `logout`. */
    method Logout()
      modifies this
      ensures user == None
    {
      user := None;
    }

    /** `isAuthenticated: !!user`. */
    function IsAuthenticated(): (r: bool)
      reads this
      ensures r <==> user != None
    {
      user.Some?
    }
  }

  /** When the table has a user with the requested name and role, the session
      is that table entry itself. */
  lemma LoginPrefersTableEntry(users: seq<User>, username: string, role: UserRole, now: nat)
    ensures var found := FindUser(users, username, role);
      found.Some? ==> SessionUser(users, username, role, now) == found.value && found.value in users
  {
    var found := FindUser(users, username, role);
    if found.Some? {
      var i :| 0 <= i < |users| && users[i] == found.value && Matches(found.value, username, role)
              && forall j :: 0 <= j < i ==> !Matches(users[j], username, role);
    }
  }

  /** A name with a role nobody in the table has gets a fresh session even when
      the name itself is in the table under the other role. */
  lemma RoleMustMatch()
    ensures FindUser([User("1", "admin", Admin)], "admin", Regular) == None
    ensures SessionUser([User("1", "admin", Admin)], "admin", Regular, 42) == User("42", "admin", Regular)
  {
    assert Strings.NatToString(42) == "42";
  }

  /** A session sequence: log in, check, log out, check. */
  method LoginThenLogout(provider: AuthProvider, username: string, password: string, role: UserRole, now: nat)
    returns (during: bool, after: bool)
    modifies provider
    ensures during <==> Accepted(username, password) || old(provider.user) != None
    ensures !after
  {
    var ok := provider.Login(username, password, role, now);
    during := provider.IsAuthenticated();
    provider.Logout();
    after := provider.IsAuthenticated();
  }
}
