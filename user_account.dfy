/** The user-account service (UserAccountServiceImpl): reading the signed-in
    user, updating that user, and checking a password against theirs. The
    user store is a map from username to user; the signed-in username and
    the password encoder's match test are parameters of the service. */
module UserAccounts {
  import opened Wrappers

  datatype User = User(username: string, password: string, email: string)

  datatype AccountError =
      /** The updated user's name is not the signed-in user's name. */
    | UpdatedUserDiffers
      /** No user is stored under the signed-in name (None: nobody is signed in). */
    | UserDoesNotExist(username: Option<string>)

  /** The text of the runtime exception raised for each error. */
  function Message(e: AccountError): string {
    match e
    case UpdatedUserDiffers => "Updated user differs from the current user"
    case UserDoesNotExist(name) =>
      "User does not exist [" + (if name.Some? then name.value else "null") + "]"
  }

  /** The store holds every user under its own username. */
  predicate KeyedByName(users: map<string, User>) {
    forall name :: name in users ==> users[name].username == name
  }

  class UserAccountService {
    /** The user service's store, by username. */
    var users: map<string, User>
    /** The signed-in username, None when nobody is signed in. */
    const currentUsername: Option<string>
    /** The password encoder: does a raw password match an encoded one? */
    const matches: (string, string) -> bool

    constructor(users: map<string, User>, currentUsername: Option<string>, matches: (string, string) -> bool)
      ensures this.users == users
      ensures this.currentUsername == currentUsername
      ensures this.matches == matches
    {
      this.users := users;
      this.currentUsername := currentUsername;
      this.matches := matches;
    }

    /** getCurrentUser: the stored user with the signed-in name, if any. */
    function CurrentUser(): (u: Option<User>)
      reads this
      ensures u.Some? <==> currentUsername.Some? && currentUsername.value in users
      ensures u.Some? ==> u.value == users[currentUsername.value]
    {
      if currentUsername.Some? && currentUsername.value in users then Some(users[currentUsername.value]) else None
    }

    /** updateCurrentUser: the updated user must carry the signed-in name,
        checked before the store is consulted, and a user of that name must
        be stored; only then is the stored user replaced. */
    method UpdateCurrentUser(updated: User) returns (r: Outcome<AccountError>)
      modifies this
      ensures currentUsername != Some(updated.username) ==> r == Fail(UpdatedUserDiffers)
      ensures currentUsername == Some(updated.username) && updated.username !in old(users) ==>
        r == Fail(UserDoesNotExist(currentUsername))
      ensures r.Fail? ==> users == old(users)
      ensures r.Pass? <==> currentUsername == Some(updated.username) && updated.username in old(users)
      ensures r.Pass? ==> users == old(users)[updated.username := updated] && CurrentUser() == Some(updated)
      ensures old(KeyedByName(users)) ==> KeyedByName(users)
      ensures r.Pass? ==> forall p :: p != "" ==>
        ValidateCurrentUserPassword(Some(p)) == Ok(matches(p, updated.password))
    {
      if currentUsername != Some(updated.username) {
        return Fail(UpdatedUserDiffers);
      }
      var current := CurrentUser();
      if current.None? {
        return Fail(UserDoesNotExist(currentUsername));
      }
      users := users[updated.username := updated];
      r := Pass;
    }

    /** validateCurrentUserPassword: an absent or empty password is false
        without consulting the store; otherwise the signed-in user must be
        stored and the answer is the encoder's match of the password against
        that user's stored password. */
    function ValidateCurrentUserPassword(password: Option<string>): (r: Result<bool, AccountError>)
      reads this
      ensures (password.None? || password.value == "") ==> r == Ok(false)
      ensures password.Some? && password.value != "" && CurrentUser().None? ==>
        r == Err(UserDoesNotExist(currentUsername))
      ensures password.Some? && password.value != "" && CurrentUser().Some? ==>
        r == Ok(matches(password.value, CurrentUser().value.password))
    {
      if password.None? || password.value == "" then Ok(false)
      else
        match CurrentUser()
        case None => Err(UserDoesNotExist(currentUsername))
        case Some(u) => Ok(matches(password.value, u.password))
    }
  }
}
