/**
 * The management credential store: one configured user whose password is kept
 * only as a salted hash, and the basic-auth check that guards the management
 * routes (server.py, the `users` table and `verify_password`).
 *
 * The hashing library is not modelled: the stored hash is an opaque string and
 * the library's hash check is a parameter `checkHash(storedHash, password)`.
 */
module Auth {
  import opened Wrappers

  /** The `users` table: the configured user name mapped to the hash of the configured password. */
  function Users(user: string, passwordHash: string): map<string, string>
  {
    map[user := passwordHash]
  }

  /**
   * `verify_password`: the user name is the identity exactly when it is a key of
   * `users` and the password checks against that key's stored hash; otherwise
   * there is no identity and the auth layer answers with a 401 challenge.
   */
  function VerifyPassword(users: map<string, string>, checkHash: (string, string) -> bool,
                          username: string, password: string): (identity: Option<string>)
    ensures identity.Some? <==> username in users && checkHash(users[username], password)
    ensures identity.Some? ==> identity.value == username
  {
    if username in users && checkHash(users[username], password) then Some(username) else None
  }

  /**
   * With the single configured user, and a hash check that accepts exactly the
   * configured password, the only credentials that yield an identity are the
   * configured pair; every other user name or password is refused.
   */
  lemma OnlyConfiguredUser(user: string, password: string, passwordHash: string,
                           checkHash: (string, string) -> bool, username: string, attempt: string)
    requires forall p :: checkHash(passwordHash, p) <==> p == password
    ensures VerifyPassword(Users(user, passwordHash), checkHash, username, attempt)
            == if username == user && attempt == password then Some(user) else None
  {
  }
}
