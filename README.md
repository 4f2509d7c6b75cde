# Mock authentication state machine of interview-ace-ai

This project models the auth provider of the interview-ace-ai web app
(`src/contexts/AuthContext.tsx`). The provider simulates an authentication
backend on top of browser storage. Its state has two parts:

- the **credential table**: lower-cased email to `{ password, profile }`, stored under `interview_platform_users`;
- the **session**: the current `UserProfile` or none. It is kept in React state and mirrored under `interview_platform_current_user`.

Four operations act on that state: `login`, `signup`, `logout` and
`updateProfile`. A fifth step, the mount effect, restores a saved session.

Modules:

- `Wrappers` (wrappers.dfy): `Option`.
- `Text` (text.dfy): ASCII lower-casing of emails and its laws.
- `Profiles` (profiles.dfy): `Profile` (a `UserProfile`), `ProfileUpdate` (a `Partial<UserProfile>`, with `None` for an absent property) and `Merge`, the spread `{ ...user, ...updates }`.
- `AuthSpec` (auth_spec.dfy): each operation as a pure function from one `Store` (table plus session) to the next. It also holds the invariants of reachable stores and the lemmas that relate operations.
- `AuthContext` (auth_context.dfy): class `AuthProvider`. Its `users` and `current` fields are updated step by step as in the source. Each method is proved to reach exactly the store the `AuthSpec` function gives, and to keep the `Consistent` invariant where the source does.
- `PrototypeLookup` (prototype_lookup.dfy): the table lookup as written on a plain JavaScript object, which also sees inherited properties. See "## Findings".

`Consistent(s)` says four things:

- every key is lower case;
- every record is filed under its own profile's email;
- profile ids are unique;
- the session, if any, is the profile stored under its email.

Signup keeps this invariant when the fresh id really is fresh. Login and logout always keep it. `updateProfile` keeps it when the update keeps the session's email and id (`UpdateProfilePreservesConsistent`). The email can still change: `EmailChangeDetachesSession` covers a new email that has no record. `EmailChangeOntoOtherAccount` covers an email that is another account's key.

Two points about the code itself:

- `getUsers` (`src/contexts/AuthContext.tsx:31-34`) calls `JSON.parse` without a guard, so malformed stored content throws. Storage is not modelled; see "## Left out".
- `updateProfile` merges an `id` property like any other, so a profile's id can change after signup. `UpdateProfilePreservesConsistent` proves that an update keeping the session's email and id (`KeepsIdentity`) keeps the invariant.

## Model

| member | source | states |
|---|---|---|
| Text.LowerChar | src/contexts/AuthContext.tsx:65 | the lower-cased character is never an upper-case letter; it equals the input exactly when the input is not upper case |
| Text.ToLower | src/contexts/AuthContext.tsx:65 | `email.toLowerCase()` keeps the length and lower-cases each character in place |
| Text.ToLowerIsLowerCase | src/contexts/AuthContext.tsx:65 | a lower-cased email has no upper-case letter |
| Text.ToLowerFixedPoints | src/contexts/AuthContext.tsx:65 | lower-casing leaves a string unchanged exactly when it has no upper-case letter |
| Text.ToLowerIdempotent | src/contexts/AuthContext.tsx:65 | lower-casing a normalized key again gives the same key |
| Profiles.NewProfile | src/contexts/AuthContext.tsx:75-84 | the profile signup builds has the given id (from `crypto.randomUUID()`), the given email (signup passes the lower-cased one), the given name and the given time, zero `totalInterviews`, `averageScore` and `streakDays`, and no badges |
| Profiles.Merge | src/contexts/AuthContext.tsx:101 | in `{ ...user, ...updates }`, each of the eight properties takes the update's value when the update has it, and keeps the profile's value otherwise |
| Profiles.MergeNoChanges | src/contexts/AuthContext.tsx:101 | merging an empty update returns the profile unchanged |
| Profiles.MergeIdempotent | src/contexts/AuthContext.tsx:101 | applying the same update twice equals applying it once |
| Profiles.MergeCombine | src/contexts/AuthContext.tsx:98-103 | two updates in a row equal one combined update in which the later properties win |
| Profiles.RenameChangesOnlyName | src/contexts/AuthContext.tsx:98-103 | the update `{ name }` changes the name and no other field |
| AuthSpec.RestoreSession | src/contexts/AuthContext.tsx:22-29 | a saved session becomes the session; with none saved nothing changes; the table is never touched |
| AuthSpec.Login | src/contexts/AuthContext.tsx:40-58 | a missing lower-cased key gives "No account found with this email"; an existing key with a different password gives "Incorrect password"; the existence check comes first; a failure changes nothing; success happens exactly when the key exists and the password matches, and it sets the session to the stored profile; the table never changes |
| AuthSpec.Signup | src/contexts/AuthContext.tsx:60-91 | an existing key gives "An account with this email already exists" whatever the password; otherwise a password shorter than 6 gives "Password must be at least 6 characters"; each failure writes nothing; success happens exactly when the key is new and the password has at least 6 characters; it adds one record under the lower-cased email, holding the password and a profile with that email, the name, the given id and time, zero counters and no badges; other records are unchanged and the new profile becomes the session |
| AuthSpec.Logout | src/contexts/AuthContext.tsx:93-96 | the session is cleared and the table is unchanged |
| AuthSpec.UpdateProfile | src/contexts/AuthContext.tsx:98-111 | with no session the store is unchanged; otherwise the session becomes the merged profile; only the record under the session's old email changes, and only if it exists; it gets the merged profile and keeps its password; the set of keys is unchanged |
| AuthSpec.EmptyConsistent | src/contexts/AuthContext.tsx:31-34 | the empty table used when nothing is stored, with no session, satisfies the invariant |
| AuthSpec.LoginPreservesConsistent | src/contexts/AuthContext.tsx:44-57 | login keeps the store consistent; the session it sets is the record filed under its own email |
| AuthSpec.SignupPreservesConsistent | src/contexts/AuthContext.tsx:64-90 | with a fresh id, signup keeps keys lower case, records under their own email, ids unique and the session stored |
| AuthSpec.LogoutPreservesConsistent | src/contexts/AuthContext.tsx:93-96 | logout keeps the store consistent |
| AuthSpec.UpdateProfilePreservesConsistent | src/contexts/AuthContext.tsx:98-111 | an update that keeps the session's email and id keeps the store consistent |
| AuthSpec.SignupThenLogin | src/contexts/AuthContext.tsx:44-90 | after a successful signup, login with the same password and any email that lower-cases to the same key succeeds, with or without a logout in between; the session is then the profile signup created, with its id |
| AuthSpec.SignupOnceOnly | src/contexts/AuthContext.tsx:64-86 | after a successful signup, signing up again with any spelling of the email fails with the conflict error, whatever the password, and writes nothing |
| AuthSpec.SignupAddsOneRecord | src/contexts/AuthContext.tsx:86-87 | a successful signup grows the table by exactly one record |
| AuthSpec.EmailCaseInsensitive | src/contexts/AuthContext.tsx:45-65 | login and signup give the same outcome for an email and its lower-cased form |
| AuthSpec.LogoutIdempotent | src/contexts/AuthContext.tsx:93-96 | two logouts give the same store as one |
| AuthSpec.RenameUpdatesSessionAndRecord | src/contexts/AuthContext.tsx:98-111 | in a consistent session, `updateProfile({ name })` changes only the name, in both the session and the stored record; the password is kept |
| AuthSpec.EmailChangeDetachesSession | src/contexts/AuthContext.tsx:101-110 | an update that changes the session's email to a new one leaves the record under the old key with the new email; the session is no longer the stored profile, and the next update leaves the table unchanged |
| AuthSpec.EmailChangeOntoOtherAccount | src/contexts/AuthContext.tsx:101-110 | an update may set the session's email to another account's key; the next update then writes the session's profile into that account's record. The record keeps the other account's password but takes the session's id, so ids are no longer unique, and logging in with the other account's password opens the session's profile |
| AuthSpec.RestoreNotValidated | src/contexts/AuthContext.tsx:22-29 | a restored session is not checked against the table: for every table and every saved profile whose email has no record, the restored session is not a stored profile |
| AuthContext.AuthProvider.constructor | src/contexts/AuthContext.tsx:18-20 | a new provider starts with the stored table and no session |
| AuthContext.AuthProvider.RestoreSession | src/contexts/AuthContext.tsx:22-29 | the mount effect sets the session only when one was saved, as `AuthSpec.RestoreSession` |
| AuthContext.AuthProvider.Login | src/contexts/AuthContext.tsx:40-58 | the fields and the result are exactly those of `AuthSpec.Login`; a consistent store stays consistent |
| AuthContext.AuthProvider.Signup | src/contexts/AuthContext.tsx:60-91 | the fields and the result are exactly those of `AuthSpec.Signup`; with a fresh id a consistent store stays consistent |
| AuthContext.AuthProvider.Logout | src/contexts/AuthContext.tsx:93-96 | the fields are exactly those of `AuthSpec.Logout`; a consistent store stays consistent |
| AuthContext.AuthProvider.UpdateProfile | src/contexts/AuthContext.tsx:98-111 | the fields are exactly those of `AuthSpec.UpdateProfile`; an update that keeps the email and id keeps a consistent store consistent |
| PrototypeLookup.LookupAsWritten | src/contexts/AuthContext.tsx:45 | for a lower-cased key, `users[key]` on a plain object gives the own record if there is one, an inherited object for `constructor` and `__proto__` (the only inherited names that are their own lower-case form), and undefined otherwise |
| PrototypeLookup.LoginAsWritten | src/contexts/AuthContext.tsx:44-53 | login with the object lookup never writes the table, and it agrees with `AuthSpec.Login` on every email that does not lower-case to an inherited name |
| PrototypeLookup.SignupAsWritten | src/contexts/AuthContext.tsx:64-73 | signup with the object lookup agrees with `AuthSpec.Signup` on every email that does not lower-case to an inherited name |
| PrototypeLookup.SignupInheritedKeyRefused | src/contexts/AuthContext.tsx:64-69 | as written, signing up as "constructor" on an empty table fails with the conflict error |
| PrototypeLookup.LoginInheritedKeyMisreported | src/contexts/AuthContext.tsx:44-53 | as written, logging in as "__proto__" on an empty table reports "Incorrect password"; the own-key lookup reports "No account found with this email" |
| PrototypeLookup.FreshEmailBehaviour | src/contexts/AuthContext.tsx:64-73 | with the own-key lookup, on an email with no record, signup succeeds with a password of at least 6 characters, and login can only fail with "No account found with this email" |

## Findings

| source | as written | input that shows it | evidently intended | confidence | as-written member | corrected member |
|---|---|---|---|---|---|---|
| src/contexts/AuthContext.tsx:64-69 | `if (users[emailLower])` tests a plain object, so the inherited `constructor` property counts as an account | `signup("constructor", "secret1", "X")` on an empty table fails with "An account with this email already exists" | only emails with a record are taken | high; not executed | PrototypeLookup.SignupInheritedKeyRefused | PrototypeLookup.FreshEmailBehaviour |
| src/contexts/AuthContext.tsx:44-53 | `users[email.toLowerCase()]` returns `Object.prototype` for `__proto__`; it is truthy and has no `password` | `login("__proto__", "x")` on an empty table returns "Incorrect password" | "No account found with this email" for an email without a record | high; not executed | PrototypeLookup.LoginInheritedKeyMisreported | PrototypeLookup.FreshEmailBehaviour |

`AuthSpec` and `AuthContext` use the own-key lookup (`key in users`).

## Left out

- `src/components/ProctoringOverlay.tsx`: display-only React rendering and `<video>` stream wiring, with no logic of its own.
- `localStorage` and JSON serialisation: the table and the session are two in-memory fields. This drops the `createdAt` Date-to-string change across a save. It also drops the throw on malformed stored JSON and the treatment of an empty stored string as absent.
- The 800 ms simulated delay and `async`/`await`: each call is atomic. Two overlapping calls could race on the load-modify-save of the table; that race is not modelled.
- React state timing: `updateProfile` reads the `user` captured at the render that produced it (`src/contexts/AuthContext.tsx:99-101`). The model reads the current session. The two agree unless the session changed after that render, through a login, signup, logout or another update. For example, a handler that runs `logout()` and then `updateProfile(u)` logs the user back in and rewrites the record, because the captured `user` is not null; the model makes `UpdateProfile(Logout(s), u)` a no-op. The reverse also happens: after `await login(e, p)` in the same handler, `updateProfile(u)` does nothing, because the captured `user` is null, while the model applies the update.
- `crypto.randomUUID()` and `new Date()` are parameters (`id`, `now`). Id uniqueness is an explicit hypothesis (`FreshId`) of `AuthSpec.SignupPreservesConsistent`.
- Text.ToLower: lower-cases ASCII letters only. Full Unicode `toLowerCase` and UTF-16 `.length` are not modelled; password length is the sequence length.
- Profiles.Merge: a property present with the value `undefined` overwrites the old value in JavaScript. The model has only present-with-a-value and absent. JavaScript numbers are modelled as `int` and `real`; floating point is not modelled.
- `src/types/interview.ts` (the `UserProfile` type) is not part of this model. The profile fields follow the object literal built by signup.
- `isLoading`, the React context plumbing and the throw in `useAuth` outside a provider: framework glue with no state-machine content.
- PrototypeLookup: writes through an inherited key in `updateProfile` are not modelled. Line 108 does not lower-case `user.email`, so after an update sets the email to any inherited name (`constructor`, `__proto__`, `toString`, `valueOf`, ...), the assignment `users[user.email].profile = updatedUser` lands on the inherited value: the `Object` function, `Object.prototype`, or a prototype method. `saveUsers` then saves the same own keys, so the saved table is the one the model gives.
