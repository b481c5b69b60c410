/**
 * The local user registry behind the login page: registering appends a user to the
 * `users` store unless the passwords differ or the e-mail is taken; logging in finds
 * the first stored user with the given e-mail and password.
 */
module Accounts {
  import opened Wrappers

  datatype User = User(id: nat, name: string, email: string, password: string, createdAt: string)

  datatype LoginForm = LoginForm(email: string, password: string)

  datatype RegisterForm = RegisterForm(name: string, email: string, password: string, confirmPassword: string)

  const EmptyRegisterForm := RegisterForm("", "", "", "")

  predicate HasCredentials(u: User, email: string, password: string)
  {
    u.email == email && u.password == password
  }

  /** `users.find(u => u.email === email && u.password === password)`. */
  function FindUser(users: seq<User>, email: string, password: string): (r: Option<User>)
    ensures r.Some? ==> r.value in users && HasCredentials(r.value, email, password)
  {
    if users == [] then None
    else if HasCredentials(users[0], email, password) then Some(users[0])
    else FindUser(users[1..], email, password)
  }

  /** `users.find(u => u.email === email)`. */
  function FindByEmail(users: seq<User>, email: string): (r: Option<User>)
    ensures r.Some? ==> r.value in users && r.value.email == email
  {
    if users == [] then None
    else if users[0].email == email then Some(users[0])
    else FindByEmail(users[1..], email)
  }

  /**
   * Login finds a user exactly when one has both the e-mail and the password, and
   * what it finds is the first such user in the store.
   */
  lemma {:induction false} FindUserFirst(users: seq<User>, email: string, password: string)
    ensures FindUser(users, email, password).None? <==>
      forall i :: 0 <= i < |users| ==> !HasCredentials(users[i], email, password)
    ensures FindUser(users, email, password).Some? ==>
      exists i :: 0 <= i < |users| && users[i] == FindUser(users, email, password).value
        && forall j :: 0 <= j < i ==> !HasCredentials(users[j], email, password)
  {
    if users != [] && !HasCredentials(users[0], email, password) {
      FindUserFirst(users[1..], email, password);
      var r := FindUser(users, email, password);
      if r.Some? {
        var i :| 0 <= i < |users[1..]| && users[1..][i] == r.value
          && forall j :: 0 <= j < i ==> !HasCredentials(users[1..][j], email, password);
        assert users[i + 1] == r.value;
        forall j | 0 <= j < i + 1 ensures !HasCredentials(users[j], email, password) {
          if j > 0 {
            assert users[j] == users[1..][j - 1];
          }
        }
      }
      forall i | 1 <= i < |users| ensures users[i] == users[1..][i - 1] {
      }
    } else if users != [] {
      assert users[0] == FindUser(users, email, password).value;
    }
  }

  /** The registration check finds a user exactly when the e-mail is already stored. */
  lemma {:induction false} FindByEmailNone(users: seq<User>, email: string)
    ensures FindByEmail(users, email).None? <==> forall i :: 0 <= i < |users| ==> users[i].email != email
  {
    if users != [] && users[0].email != email {
      FindByEmailNone(users[1..], email);
      forall i | 1 <= i < |users| ensures users[i] == users[1..][i - 1] {
      }
    }
  }

  /** No two stored users share an e-mail. */
  predicate UniqueEmails(users: seq<User>)
  {
    forall i, j :: 0 <= i < j < |users| ==> users[i].email != users[j].email
  }

  /** Appending a user whose e-mail the check did not find keeps e-mails unique. */
  lemma RegisterKeepsUnique(users: seq<User>, u: User)
    requires UniqueEmails(users) && FindByEmail(users, u.email).None?
    ensures UniqueEmails(users + [u])
  {
    FindByEmailNone(users, u.email);
  }

  /** After registering with an e-mail and password, logging in with them finds the new user. */
  lemma RegisterThenLogin(users: seq<User>, u: User)
    requires FindByEmail(users, u.email).None?
    ensures FindUser(users + [u], u.email, u.password) == Some(u)
  {
    FindByEmailNone(users, u.email);
    FindUserFirst(users + [u], u.email, u.password);
    assert HasCredentials((users + [u])[|users|], u.email, u.password);
    forall i | 0 <= i < |users| ensures !HasCredentials((users + [u])[i], u.email, u.password) {
      assert (users + [u])[i] == users[i];
    }
  }

  datatype RegisterOutcome = PasswordMismatch | EmailTaken | Registered(user: User)

  class LoginPage {
    /** The `users` store. */
    var users: seq<User>
    var loginForm: LoginForm
    var registerForm: RegisterForm
    var isLoading: bool

    ghost predicate Valid()
      reads this
    {
      UniqueEmails(users)
    }

    constructor (users: seq<User>)
      requires UniqueEmails(users)
      ensures Valid() && this.users == users
      ensures loginForm == LoginForm("", "") && registerForm == EmptyRegisterForm && !isLoading
    {
      this.users := users;
      loginForm := LoginForm("", "");
      registerForm := EmptyRegisterForm;
      isLoading := false;
    }

    method SetLoginForm(f: LoginForm)
      modifies this`loginForm
      ensures loginForm == f
    {
      loginForm := f;
    }

    method SetRegisterForm(f: RegisterForm)
      modifies this`registerForm
      ensures registerForm == f
    {
      registerForm := f;
    }

    /**
     * `handleLogin`, with its one-second delay collapsed: the user handed to `onLogin`,
     * or none when no stored user has both the e-mail and the password.
     */
    method HandleLogin() returns (user: Option<User>)
      modifies this`isLoading
      ensures user == FindUser(users, loginForm.email, loginForm.password)
      ensures !isLoading
    {
      isLoading := true;
      user := FindUser(users, loginForm.email, loginForm.password);
      isLoading := false;
    }

    /**
     * `handleRegister` at clock reading `now` (`newId` is `Date.now()`): differing
     * passwords or a stored e-mail refuse the registration and leave the store alone;
     * otherwise one user is appended and the form is cleared.
     */
    method HandleRegister(newId: nat, now: string) returns (outcome: RegisterOutcome)
      requires Valid()
      modifies this`users, this`registerForm, this`isLoading
      ensures Valid() && !isLoading
      ensures outcome == PasswordMismatch <==> old(registerForm.password != registerForm.confirmPassword)
      ensures outcome == EmailTaken <==>
        old(registerForm.password == registerForm.confirmPassword && FindByEmail(users, registerForm.email).Some?)
      ensures !outcome.Registered? ==> users == old(users) && registerForm == old(registerForm)
      ensures outcome.Registered? ==>
        && outcome.user == User(newId, old(registerForm.name), old(registerForm.email), old(registerForm.password), now)
        && users == old(users) + [outcome.user]
        && registerForm == EmptyRegisterForm
        && FindUser(users, outcome.user.email, outcome.user.password) == Some(outcome.user)
    {
      isLoading := true;
      if registerForm.password != registerForm.confirmPassword {
        isLoading := false;
        return PasswordMismatch;
      }
      if FindByEmail(users, registerForm.email).Some? {
        outcome := EmailTaken;
      } else {
        var u := User(newId, registerForm.name, registerForm.email, registerForm.password, now);
        RegisterKeepsUnique(users, u);
        RegisterThenLogin(users, u);
        users := users + [u];
        registerForm := EmptyRegisterForm;
        outcome := Registered(u);
      }
      isLoading := false;
    }
  }
}
