/**
 * The auth provider as the object it is at run time: the credential table and
 * the session are fields that each operation reads and overwrites in turn.
 * Every method is proved to take the store from `Snapshot()` to exactly the
 * store the matching `AuthSpec` function gives.
 */
module AuthContext {
  import opened Wrappers
  import opened Text
  import opened Profiles
  import opened AuthSpec

  class AuthProvider {
    /** The persisted credential table. */
    var users: Table
    /** The session: `user` state and its persisted mirror, always written together. */
    var current: Option<Profile>

    function Snapshot(): Store
      reads this
    {
      Store(users, current)
    }

    /** A provider over an existing table, before the mount effect has run: no session. */
    constructor (stored: Table)
      ensures Snapshot() == Store(stored, None)
    {
      users := stored;
      current := None;
    }

    /** The mount effect: a saved session, if there is one, becomes the session. */
    method RestoreSession(saved: Option<Profile>)
      modifies this
      ensures Snapshot() == AuthSpec.RestoreSession(old(Snapshot()), saved)
    {
      if saved.Some? {
        current := saved;
      }
    }

    method Login(email: string, password: string) returns (r: AuthResult)
      modifies this
      ensures Step(Snapshot(), r) == AuthSpec.Login(old(Snapshot()), email, password)
      ensures Consistent(old(Snapshot())) ==> Consistent(Snapshot())
    {
      if Consistent(Snapshot()) {
        LoginPreservesConsistent(Snapshot(), email, password);
      }
      var table := users;
      var key := ToLower(email);
      if key !in table {
        return Failure(NoAccount);
      }
      var record := table[key];
      if record.password != password {
        return Failure(IncorrectPassword);
      }
      current := Some(record.profile);
      return Success;
    }

    /** `id` and `now` stand for `crypto.randomUUID()` and `new Date()`. */
    method Signup(email: string, password: string, name: string, id: string, now: int) returns (r: AuthResult)
      modifies this
      ensures Step(Snapshot(), r) == AuthSpec.Signup(old(Snapshot()), email, password, name, id, now)
      ensures Consistent(old(Snapshot())) && FreshId(old(users), id) ==> Consistent(Snapshot())
    {
      if Consistent(Snapshot()) && FreshId(users, id) {
        SignupPreservesConsistent(Snapshot(), email, password, name, id, now);
      }
      var table := users;
      var key := ToLower(email);
      if key in table {
        return Failure(AccountExists);
      }
      if |password| < MinPasswordLength {
        return Failure(PasswordTooShort);
      }
      var profile := NewProfile(id, key, name, now);
      table := table[key := Record(password, profile)];
      users := table;
      current := Some(profile);
      return Success;
    }

    method Logout()
      modifies this
      ensures Snapshot() == AuthSpec.Logout(old(Snapshot()))
      ensures Consistent(old(Snapshot())) ==> Consistent(Snapshot())
    {
      if Consistent(Snapshot()) {
        LogoutPreservesConsistent(Snapshot());
      }
      current := None;
    }

    method UpdateProfile(u: ProfileUpdate)
      modifies this
      ensures Snapshot() == AuthSpec.UpdateProfile(old(Snapshot()), u)
      ensures Consistent(old(Snapshot())) && (old(current).Some? ==> KeepsIdentity(old(current).value, u))
        ==> Consistent(Snapshot())
    {
      if Consistent(Snapshot()) && (current.Some? ==> KeepsIdentity(current.value, u)) {
        UpdateProfilePreservesConsistent(Snapshot(), u);
      }
      if current.None? {
        return;
      }
      var user := current.value;
      var updated := Merge(user, u);
      current := Some(updated);
      var table := users;
      if user.email in table {
        table := table[user.email := table[user.email].(profile := updated)];
        users := table;
      }
    }
  }
}
