/**
 * The credential table is a plain object from `JSON.parse` (or `{}`), so
 * `users[key]` also finds what the object inherits from `Object.prototype`.
 * Of the inherited property names, only `constructor` and `__proto__` are
 * their own lower-case form, so only they can be reached through a lower-cased
 * email; for either the lookup gives a truthy object that has no `password`.
 * This module models `login` and `signup` with that lookup, and shows the
 * answers that differ from the own-key lookup `AuthSpec` uses.
 */
module PrototypeLookup {
  import opened Wrappers
  import opened Text
  import opened Profiles
  import opened AuthSpec

  const InheritedKeys: set<string> := {"constructor", "__proto__"}

  /**
   * What `users[key]` evaluates to for a lower-cased key, the only kind
   * `login` and `signup` look up.
   */
  datatype Lookup = Own(record: Record) | Inherited | Missing

  function LookupAsWritten(t: Table, key: string): (r: Lookup)
    requires IsLowerCase(key)
    ensures r.Missing? <==> key !in t && key !in InheritedKeys
    ensures r.Own? <==> key in t
    ensures r.Own? ==> r.record == t[key]
  {
    if key in t then Own(t[key])
    else if key in InheritedKeys then Inherited
    else Missing
  }

  /** `login` with the object lookup: an inherited value has an undefined password. */
  function LoginAsWritten(s: Store, email: string, password: string): (r: Step)
    ensures r.store.users == s.users
    ensures ToLower(email) !in InheritedKeys ==> r == AuthSpec.Login(s, email, password)
  {
    match LookupAsWritten(s.users, ToLower(email))
    case Missing => Step(s, Failure(NoAccount))
    case Inherited => Step(s, Failure(IncorrectPassword))
    case Own(record) =>
      if record.password != password then Step(s, Failure(IncorrectPassword))
      else Step(s.(current := Some(record.profile)), Success)
  }

  /** `signup` with the object lookup: any truthy value is taken for an existing account. */
  function SignupAsWritten(s: Store, email: string, password: string, name: string, id: string, now: int): (r: Step)
    ensures ToLower(email) !in InheritedKeys ==> r == AuthSpec.Signup(s, email, password, name, id, now)
  {
    match LookupAsWritten(s.users, ToLower(email))
    case Own(_) => Step(s, Failure(AccountExists))
    case Inherited => Step(s, Failure(AccountExists))
    case Missing =>
      if |password| < MinPasswordLength then Step(s, Failure(PasswordTooShort))
      else
        var key := ToLower(email);
        var profile := NewProfile(id, key, name, now);
        Step(Store(s.users[key := Record(password, profile)], Some(profile)), Success)
  }

  /**
   * Signing up as "constructor" on an empty table is refused as a duplicate,
   * whatever the password; `FreshEmailBehaviour` shows that the own-key lookup
   * accepts it.
   */
  lemma SignupInheritedKeyRefused(password: string, name: string, id: string, now: int)
    ensures SignupAsWritten(Store(map[], None), "constructor", password, name, id, now).result
      == Failure(AccountExists)
  {
    ToLowerFixedPoints("constructor");
    assert ToLower("constructor") == "constructor";
    assert LookupAsWritten(map[], "constructor") == Inherited;
  }

  /** Logging in as "__proto__" on an empty table reports a wrong password, not a missing account. */
  lemma LoginInheritedKeyMisreported(password: string)
    ensures LoginAsWritten(Store(map[], None), "__proto__", password).result == Failure(IncorrectPassword)
    ensures Login(Store(map[], None), "__proto__", password).result == Failure(NoAccount)
  {
    ToLowerFixedPoints("__proto__");
    assert ToLower("__proto__") == "__proto__";
    assert LookupAsWritten(map[], "__proto__") == Inherited;
  }

  /**
   * With the own-key lookup, a signup with a long enough password succeeds on
   * every email that has no record yet, and the only error a login on such an
   * email can give is the missing account.
   */
  lemma FreshEmailBehaviour(s: Store, email: string, password: string, password': string,
                            name: string, id: string, now: int)
    requires ToLower(email) !in s.users
    ensures |password| >= MinPasswordLength ==> Signup(s, email, password, name, id, now).result == Success
    ensures Login(s, email, password').result == Failure(NoAccount)
  {
  }
}
