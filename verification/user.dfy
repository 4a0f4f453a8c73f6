/**
 * User: the account's name, password hash and login status.
 */
module Users {
  import opened Wrappers
  import opened JavaStrings

  /** The account statuses; ACTIVE and LOCKED are the ones the entity sets. */
  datatype UserStatus = Active | Locked | OtherStatus(name: string)

  const MAX_USERNAME: nat := 50
  const USERNAME_EMPTY: string := "用户名不能为空"
  const USERNAME_TOO_LONG: string := "用户名长度不能超过50个字符"
  const PASSWORD_EMPTY: string := "密码哈希值不能为空"

  datatype User = User(username: Option<string>, passwordHash: Option<string>, status: Option<UserStatus>)

  /** updateUsername: blank and over-long names are refused; the length is checked before trimming. */
  function UpdateUsername(u: User, username: Option<string>): (r: Result<User, string>)
    ensures username.None? || Trim(username.value) == "" ==> r == Failure(USERNAME_EMPTY)
    ensures username.Some? && Trim(username.value) != "" && |username.value| > MAX_USERNAME ==> r == Failure(USERNAME_TOO_LONG)
    ensures r.Success? ==> r.value == u.(username := Some(Trim(username.value))) && |username.value| <= MAX_USERNAME
  {
    if username.None? || Trim(username.value) == "" then Failure(USERNAME_EMPTY)
    else if |username.value| > MAX_USERNAME then Failure(USERNAME_TOO_LONG)
    else Success(u.(username := Some(Trim(username.value))))
  }

  /** A stored name is trimmed, so storing it again leaves it unchanged. */
  lemma StoredNameIsStable(u: User, username: string)
    requires UpdateUsername(u, Some(username)).Success?
    ensures var once := UpdateUsername(u, Some(username)).value;
      UpdateUsername(once, once.username) == Success(once)
  {
    TrimOfTrimmed(Trim(username));
  }

  /** updatePassword: a blank hash is refused; any other hash is stored as given. */
  function UpdatePassword(u: User, hash: Option<string>): (r: Result<User, string>)
    ensures hash.None? || Trim(hash.value) == "" <==> r == Failure(PASSWORD_EMPTY)
    ensures r.Success? ==> r.value == u.(passwordHash := hash)
  {
    if hash.None? || Trim(hash.value) == "" then Failure(PASSWORD_EMPTY)
    else Success(u.(passwordHash := hash))
  }

  /** canLogin: ACTIVE.equals(status), so a null or any other status cannot log in. */
  predicate CanLogin(u: User)
    ensures u.status.None? || u.status == Some(Locked) ==> !CanLogin(u)
    ensures CanLogin(u) ==> u.status == Some(Active)
  {
    u.status == Some(Active)
  }

  function Lock(u: User): (r: User)
    ensures !CanLogin(r) && r.status == Some(Locked)
    ensures r.(status := u.status) == u
  {
    u.(status := Some(Locked))
  }

  function Activate(u: User): (r: User)
    ensures CanLogin(r)
    ensures r.(status := u.status) == u
  {
    u.(status := Some(Active))
  }

  /** Locking undoes activation and activation undoes locking. */
  lemma LockActivateInverse(u: User)
    ensures Lock(Activate(u)) == Lock(u)
    ensures Activate(Lock(u)) == Activate(u)
    ensures CanLogin(u) ==> Activate(Lock(u)) == u
  {
  }
}
