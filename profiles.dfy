/**
 * The user profile record and the shallow merge `{ ...user, ...updates }`
 * that `updateProfile` applies to it.
 */
module Profiles {
  import opened Wrappers

  /** A `UserProfile`. `createdAt` is a clock reading in milliseconds. */
  datatype Profile = Profile(
    id: string,
    email: string,
    name: string,
    createdAt: int,
    totalInterviews: int,
    averageScore: real,
    streakDays: int,
    badges: seq<string>)

  /** A `Partial<UserProfile>`: `None` is a property the update object does not have. */
  datatype ProfileUpdate = ProfileUpdate(
    id: Option<string>,
    email: Option<string>,
    name: Option<string>,
    createdAt: Option<int>,
    totalInterviews: Option<int>,
    averageScore: Option<real>,
    streakDays: Option<int>,
    badges: Option<seq<string>>)

  /** The update object with no properties, `{}`. */
  const NoChanges := ProfileUpdate(None, None, None, None, None, None, None, None)

  /** The update object `{ name: n }`. */
  function RenameTo(n: string): ProfileUpdate {
    NoChanges.(name := Some(n))
  }

  /** The profile a fresh signup creates: counters zero and no badges. */
  function NewProfile(id: string, email: string, name: string, createdAt: int): (p: Profile)
    ensures p.id == id && p.email == email && p.name == name && p.createdAt == createdAt
    ensures p.totalInterviews == 0 && p.averageScore == 0.0 && p.streakDays == 0
    ensures p.badges == []
  {
    Profile(id, email, name, createdAt, 0, 0.0, 0, [])
  }

  /**
   * `{ ...p, ...u }`: a property absent from the update keeps its old value;
   * a present one takes the update's value.
   */
  function Merge(p: Profile, u: ProfileUpdate): (r: Profile)
    ensures r.id == (if u.id.Some? then u.id.value else p.id)
    ensures r.email == (if u.email.Some? then u.email.value else p.email)
    ensures r.name == (if u.name.Some? then u.name.value else p.name)
    ensures r.createdAt == (if u.createdAt.Some? then u.createdAt.value else p.createdAt)
    ensures r.totalInterviews == (if u.totalInterviews.Some? then u.totalInterviews.value else p.totalInterviews)
    ensures r.averageScore == (if u.averageScore.Some? then u.averageScore.value else p.averageScore)
    ensures r.streakDays == (if u.streakDays.Some? then u.streakDays.value else p.streakDays)
    ensures r.badges == (if u.badges.Some? then u.badges.value else p.badges)
  {
    Profile(
      u.id.GetOr(p.id),
      u.email.GetOr(p.email),
      u.name.GetOr(p.name),
      u.createdAt.GetOr(p.createdAt),
      u.totalInterviews.GetOr(p.totalInterviews),
      u.averageScore.GetOr(p.averageScore),
      u.streakDays.GetOr(p.streakDays),
      u.badges.GetOr(p.badges))
  }

  /** `{ ...u1, ...u2 }`: the properties of `u2` win over those of `u1`. */
  function Combine(u1: ProfileUpdate, u2: ProfileUpdate): ProfileUpdate {
    ProfileUpdate(
      if u2.id.Some? then u2.id else u1.id,
      if u2.email.Some? then u2.email else u1.email,
      if u2.name.Some? then u2.name else u1.name,
      if u2.createdAt.Some? then u2.createdAt else u1.createdAt,
      if u2.totalInterviews.Some? then u2.totalInterviews else u1.totalInterviews,
      if u2.averageScore.Some? then u2.averageScore else u1.averageScore,
      if u2.streakDays.Some? then u2.streakDays else u1.streakDays,
      if u2.badges.Some? then u2.badges else u1.badges)
  }

  /** Merging `{}` changes nothing. */
  lemma MergeNoChanges(p: Profile)
    ensures Merge(p, NoChanges) == p
  {
  }

  /** Applying the same update twice is applying it once. */
  lemma MergeIdempotent(p: Profile, u: ProfileUpdate)
    ensures Merge(Merge(p, u), u) == Merge(p, u)
  {
  }

  /** Two updates in a row are one update with the later one's properties winning. */
  lemma MergeCombine(p: Profile, u1: ProfileUpdate, u2: ProfileUpdate)
    ensures Merge(Merge(p, u1), u2) == Merge(p, Combine(u1, u2))
  {
  }

  /** `{ name: n }` changes the name and nothing else. */
  lemma RenameChangesOnlyName(p: Profile, n: string)
    ensures Merge(p, RenameTo(n)) == p.(name := n)
  {
  }
}
