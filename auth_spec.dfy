/**
 * The mock authentication state machine of the auth provider, as pure
 * functions from one store to the next. A store is the credential table
 * (the `interview_platform_users` entry: normalized email to password and
 * profile) and the current session (React state mirrored under
 * `interview_platform_current_user`).
 */
module AuthSpec {
  import opened Wrappers
  import opened Text
  import opened Profiles

  /** A credential record: a plaintext password and the profile it unlocks. */
  datatype Record = Record(password: string, profile: Profile)

  type Table = map<string, Record>

  datatype Store = Store(users: Table, current: Option<Profile>)

  /** `{ success: true }` or `{ success: false, error }`. */
  datatype AuthResult = Success | Failure(error: string)

  /** The store after an operation and what the operation answered. */
  datatype Step = Step(store: Store, result: AuthResult)

  const NoAccount := "No account found with this email"
  const IncorrectPassword := "Incorrect password"
  const AccountExists := "An account with this email already exists"
  const PasswordTooShort := "Password must be at least 6 characters"
  const MinPasswordLength := 6

  /** The session a process starts with: restored from storage when one was saved. */
  function RestoreSession(s: Store, saved: Option<Profile>): (r: Store)
    ensures r.users == s.users
    ensures saved.Some? ==> r.current == saved
    ensures saved.None? ==> r == s
  {
    if saved.Some? then s.(current := saved) else s
  }

  /**
   * `login`: the account must exist under the lower-cased email, then the
   * password must match exactly; only then does the stored profile become the
   * session. The table is never written.
   */
  function Login(s: Store, email: string, password: string): (r: Step)
    ensures r.store.users == s.users
    ensures r.result.Failure? ==> r.store == s
    ensures ToLower(email) !in s.users ==> r.result == Failure(NoAccount)
    ensures ToLower(email) in s.users && s.users[ToLower(email)].password != password
      ==> r.result == Failure(IncorrectPassword)
    ensures r.result.Success?
      <==> ToLower(email) in s.users && s.users[ToLower(email)].password == password
    ensures r.result.Success? ==> r.store.current == Some(s.users[ToLower(email)].profile)
  {
    var key := ToLower(email);
    if key !in s.users then
      Step(s, Failure(NoAccount))
    else if s.users[key].password != password then
      Step(s, Failure(IncorrectPassword))
    else
      Step(s.(current := Some(s.users[key].profile)), Success)
  }

  /**
   * `signup`: an existing account wins over a short password; a fresh email
   * with a password of at least six characters gets exactly one new record,
   * whose profile also becomes the session.
   */
  function Signup(s: Store, email: string, password: string, name: string, id: string, now: int): (r: Step)
    ensures ToLower(email) in s.users ==> r == Step(s, Failure(AccountExists))
    ensures ToLower(email) !in s.users && |password| < MinPasswordLength
      ==> r == Step(s, Failure(PasswordTooShort))
    ensures r.result.Success? <==> ToLower(email) !in s.users && |password| >= MinPasswordLength
    ensures r.result.Success? ==>
      var key := ToLower(email);
      && r.store.users.Keys == s.users.Keys + {key}
      && (forall k :: k in s.users ==> r.store.users[k] == s.users[k])
      && r.store.users[key] == Record(password, NewProfile(id, key, name, now))
      && r.store.current == Some(r.store.users[key].profile)
  {
    var key := ToLower(email);
    if key in s.users then
      Step(s, Failure(AccountExists))
    else if |password| < MinPasswordLength then
      Step(s, Failure(PasswordTooShort))
    else
      var profile := NewProfile(id, key, name, now);
      Step(Store(s.users[key := Record(password, profile)], Some(profile)), Success)
  }

  /** `logout`: the session ends; the table is kept. */
  function Logout(s: Store): (r: Store)
    ensures r.users == s.users && r.current.None?
  {
    s.(current := None)
  }

  /**
   * `updateProfile`: without a session nothing happens. Otherwise the merged
   * profile becomes the session, and the record stored under the session's
   * OLD email, when there is one, gets it too, keeping its password.
   */
  function UpdateProfile(s: Store, u: ProfileUpdate): (r: Store)
    ensures s.current.None? ==> r == s
    ensures s.current.Some? ==> r.current == Some(Merge(s.current.value, u))
    ensures r.users.Keys == s.users.Keys
    ensures forall k :: k in s.users ==> r.users[k].password == s.users[k].password
    ensures forall k ::
      k in s.users && (s.current.None? || k != s.current.value.email) ==> r.users[k] == s.users[k]
    ensures s.current.Some? && s.current.value.email in s.users
      ==> r.users[s.current.value.email].profile == Merge(s.current.value, u)
  {
    match s.current
    case None => s
    case Some(user) =>
      var updated := Merge(user, u);
      var users :=
        if user.email in s.users
        then s.users[user.email := s.users[user.email].(profile := updated)]
        else s.users;
      Store(users, Some(updated))
  }

  // ---------------------------------------------------------------------------
  // Invariants of the reachable stores

  /** Every key is a lower-cased email. */
  ghost predicate KeysNormalized(t: Table) {
    forall k :: k in t ==> ToLower(k) == k
  }

  /** Every record is filed under its own profile's email. */
  ghost predicate KeysMatchEmails(t: Table) {
    forall k :: k in t ==> t[k].profile.email == k
  }

  /** No two records share a profile id. */
  ghost predicate IdsUnique(t: Table) {
    forall k1, k2 :: k1 in t && k2 in t && k1 != k2 ==> t[k1].profile.id != t[k2].profile.id
  }

  /** The session, if any, is the profile stored under its email. */
  ghost predicate SessionStored(s: Store) {
    s.current.Some? ==>
      s.current.value.email in s.users && s.users[s.current.value.email].profile == s.current.value
  }

  ghost predicate Consistent(s: Store) {
    KeysNormalized(s.users) && KeysMatchEmails(s.users) && IdsUnique(s.users) && SessionStored(s)
  }

  /** `id` belongs to no stored profile. */
  ghost predicate FreshId(t: Table, id: string) {
    forall k :: k in t ==> t[k].profile.id != id
  }

  /** The update keeps the two identifying properties, email and id. */
  predicate KeepsIdentity(p: Profile, u: ProfileUpdate) {
    (u.email.None? || u.email.value == p.email) && (u.id.None? || u.id.value == p.id)
  }

  /** The empty store satisfies every invariant. */
  lemma EmptyConsistent()
    ensures Consistent(Store(map[], None))
  {
  }

  lemma LoginPreservesConsistent(s: Store, email: string, password: string)
    requires Consistent(s)
    ensures Consistent(Login(s, email, password).store)
  {
  }

  lemma SignupPreservesConsistent(s: Store, email: string, password: string, name: string, id: string, now: int)
    requires Consistent(s)
    requires FreshId(s.users, id)
    ensures Consistent(Signup(s, email, password, name, id, now).store)
  {
    ToLowerIdempotent(email);
  }

  lemma LogoutPreservesConsistent(s: Store)
    requires Consistent(s)
    ensures Consistent(Logout(s))
  {
  }

  lemma UpdateProfilePreservesConsistent(s: Store, u: ProfileUpdate)
    requires Consistent(s)
    requires s.current.Some? ==> KeepsIdentity(s.current.value, u)
    ensures Consistent(UpdateProfile(s, u))
  {
  }

  // ---------------------------------------------------------------------------
  // Relations between operations

  /**
   * After a successful signup, logging in with the same password and any
   * spelling of the email that lower-cases to the same key succeeds, whether or
   * not the session was ended in between, and the session is the profile the
   * signup created, with its id.
   */
  lemma SignupThenLogin(s: Store, email: string, email': string, password: string, name: string, id: string, now: int)
    requires Signup(s, email, password, name, id, now).result.Success?
    requires ToLower(email') == ToLower(email)
    ensures var s1 := Signup(s, email, password, name, id, now).store;
      var created := NewProfile(id, ToLower(email), name, now);
      && Login(s1, email', password) == Step(s1, Success)
      && Login(Logout(s1), email', password) == Step(s1, Success)
      && s1.current == Some(created)
  {
  }

  /** Once an email has signed up, no spelling of it can sign up again, whatever the password. */
  lemma SignupOnceOnly(s: Store, email: string, email': string, password: string, password': string,
                       name: string, name': string, id: string, id': string, now: int, now': int)
    requires Signup(s, email, password, name, id, now).result.Success?
    requires ToLower(email') == ToLower(email)
    ensures var s1 := Signup(s, email, password, name, id, now).store;
      Signup(s1, email', password', name', id', now') == Step(s1, Failure(AccountExists))
  {
  }

  /** A successful signup grows the table by exactly one record. */
  lemma SignupAddsOneRecord(s: Store, email: string, password: string, name: string, id: string, now: int)
    requires Signup(s, email, password, name, id, now).result.Success?
    ensures |Signup(s, email, password, name, id, now).store.users| == |s.users| + 1
  {
  }

  /** The email given to login and signup matters only up to case. */
  lemma EmailCaseInsensitive(s: Store, email: string, password: string, name: string, id: string, now: int)
    ensures Login(s, ToLower(email), password) == Login(s, email, password)
    ensures Signup(s, ToLower(email), password, name, id, now) == Signup(s, email, password, name, id, now)
  {
    ToLowerIdempotent(email);
  }

  /** A second logout changes nothing. */
  lemma LogoutIdempotent(s: Store)
    ensures Logout(Logout(s)) == Logout(s)
  {
  }

  /**
   * `updateProfile({ name })` in a consistent session changes the name and
   * nothing else, in the session and in the stored record alike.
   */
  lemma RenameUpdatesSessionAndRecord(s: Store, n: string)
    requires Consistent(s) && s.current.Some?
    ensures var r := UpdateProfile(s, RenameTo(n));
      var renamed := s.current.value.(name := n);
      && r.current == Some(renamed)
      && r.users == s.users[s.current.value.email := s.users[s.current.value.email].(profile := renamed)]
  {
    RenameChangesOnlyName(s.current.value, n);
  }

  /**
   * An update that changes the session's email to one without a record
   * detaches the session from the table: the record keeps its old key, and
   * the next update leaves the table unchanged.
   */
  lemma EmailChangeDetachesSession(s: Store, u: ProfileUpdate, u': ProfileUpdate)
    requires Consistent(s) && s.current.Some?
    requires u.email.Some? && u.email.value != s.current.value.email && u.email.value !in s.users
    ensures var s1 := UpdateProfile(s, u);
      && !SessionStored(s1)
      && !KeysMatchEmails(s1.users)
      && UpdateProfile(s1, u').users == s1.users
  {
  }

  /**
   * An update that changes the session's email to ANOTHER account's key is
   * not refused. The next update then writes the session's profile into that
   * account's record: the record keeps that account's password but now holds
   * the session's profile id, so two records share one id, and logging in
   * with the other account's password opens the session's profile.
   */
  lemma EmailChangeOntoOtherAccount(s: Store, other: string, n: string)
    requires Consistent(s) && s.current.Some?
    requires other in s.users && other != s.current.value.email
    ensures var s2 := UpdateProfile(UpdateProfile(s, NoChanges.(email := Some(other))), RenameTo(n));
      && s2.users[other].password == s.users[other].password
      && s2.users[other].profile.id == s.current.value.id
      && !IdsUnique(s2.users)
      && Login(Logout(s2), other, s.users[other].password).store.current.value.id == s.current.value.id
  {
  }

  /** A restored session is not checked against the table: it may have no record. */
  lemma RestoreNotValidated(s: Store, p: Profile)
    requires p.email !in s.users
    ensures !SessionStored(RestoreSession(s, Some(p)))
  {
  }
}
