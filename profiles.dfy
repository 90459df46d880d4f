/** The profile table, keyed by the identity provider's user id: the
    read-only lookup of the signed-in user's profile (lib/current-profile.ts)
    and the find-or-create run on first sign-in (lib/initial-profile.ts). */
module Profiles {
  import opened Js

  /** The signed-in user as the identity provider reports it. */
  datatype User = User(
    id: string,
    firstName: Option<string>,
    lastName: Option<string>,
    imageUrl: string,
    emailAddresses: seq<string>)

  datatype Profile = Profile(id: string, userId: string, name: string, imageUrl: string, email: string)

  /** The table; `userId` is a unique column, so it is a map from user id. */
  type Table = map<string, Profile>

  /** Every row is stored under its own user id. */
  predicate KeyedByUser(table: Table)
  {
    forall k :: k in table ==> table[k].userId == k
  }

  /** `currentProfile()`: the profile of the signed-in user, or null. */
  function CurrentProfile(table: Table, user: Option<User>): (r: Option<Profile>)
    requires KeyedByUser(table)
    ensures r.Some? ==> user.Some? && r.value in table.Values && r.value.userId == user.value.id
    ensures r.None? ==> user.None? || forall p :: p in table.Values ==> p.userId != user.value.id
  {
    if user.None? then None
    else if user.value.id in table then Some(table[user.value.id])
    else None
  }

  /** A template literal `${x}` of a string that may be null. */
  function Interpolate(s: Option<string>): string
  {
    match s
    case None => "null"
    case Some(v) => v
  }

  /** `${user.firstName} ${user.lastName}` */
  function DisplayName(user: User): string
  {
    Interpolate(user.firstName) + " " + Interpolate(user.lastName)
  }

  datatype Outcome =
    | RedirectTo(path: string)  // no signed-in user
    | Returned(profile: Profile)
    | Threw                     // the user has no e-mail address

  /** `initialProfile()` on the table `table`: the outcome and the table after
      the call; `newId` is the id the database gives a new row. */
  function InitialProfileSpec(table: Table, user: Option<User>, newId: string): (Outcome, Table)
  {
    if user.None? then (RedirectTo("/intro"), table)
    else if user.value.id in table then (Returned(table[user.value.id]), table)
    else if user.value.emailAddresses == [] then (Threw, table)
    else
      var u := user.value;
      var p := Profile(newId, u.id, DisplayName(u), u.imageUrl, u.emailAddresses[0]);
      (Returned(p), table[u.id := p])
  }

  class ProfileStore {
    var profiles: Table

    ghost predicate Valid()
      reads this
    {
      KeyedByUser(profiles)
    }

    constructor ()
      ensures Valid() && profiles == map[]
    {
      profiles := map[];
    }

    /** `initialProfile()`: find the user's profile, creating it if absent. */
    method InitialProfile(user: Option<User>, newId: string) returns (r: Outcome)
      requires Valid()
      modifies this
      ensures Valid()
      ensures (r, profiles) == InitialProfileSpec(old(profiles), user, newId)
    {
      if user.None? {
        return RedirectTo("/intro");
      }
      var u := user.value;
      if u.id in profiles {
        return Returned(profiles[u.id]);
      }
      var name := DisplayName(u);
      if u.emailAddresses == [] {
        return Threw;
      }
      var p := Profile(newId, u.id, name, u.imageUrl, u.emailAddresses[0]);
      profiles := profiles[u.id := p];
      r := Returned(p);
    }
  }

  /** Find-or-create keeps every row under its own user id. */
  lemma InitialProfileKeepsKeys(table: Table, user: Option<User>, newId: string)
    requires KeyedByUser(table)
    ensures KeyedByUser(InitialProfileSpec(table, user, newId).1)
  {
  }

  /** Without a signed-in user the call redirects to /intro and touches nothing. */
  lemma NoUserRedirects(table: Table, newId: string)
    ensures InitialProfileSpec(table, None, newId) == (RedirectTo("/intro"), table)
  {
  }

  /** An existing profile is returned and the table is unchanged. */
  lemma ExistingProfileReturned(table: Table, user: User, newId: string)
    requires KeyedByUser(table)
    requires exists p :: p in table.Values && p.userId == user.id
    ensures var (r, t) := InitialProfileSpec(table, Some(user), newId);
      t == table && r.Returned? && r.profile in table.Values && r.profile.userId == user.id
  {
    var p :| p in table.Values && p.userId == user.id;
    var k :| k in table && table[k] == p;
  }

  /** Otherwise exactly one profile is added, built from the user's data. */
  lemma NewProfileCreated(table: Table, user: User, newId: string)
    requires KeyedByUser(table)
    requires forall p :: p in table.Values ==> p.userId != user.id
    requires user.emailAddresses != []
    ensures var (r, t) := InitialProfileSpec(table, Some(user), newId);
      && r.Returned?
      && t.Keys == table.Keys + {user.id} && |t| == |table| + 1
      && (forall k :: k in table ==> t[k] == table[k])
      && t[user.id] == r.profile
      && r.profile.id == newId
      && r.profile.userId == user.id
      && r.profile.name == DisplayName(user)
      && r.profile.imageUrl == user.imageUrl
      && r.profile.email == user.emailAddresses[0]
  {
    forall k | k in table ensures k != user.id {
      assert table[k] in table.Values;
    }
    var t := InitialProfileSpec(table, Some(user), newId).1;
    assert t.Keys == table.Keys + {user.id};
  }

  /** With both names set, the display name is "first last". */
  lemma DisplayNameOfNamedUser(user: User)
    requires user.firstName.Some? && user.lastName.Some?
    ensures DisplayName(user) == user.firstName.value + " " + user.lastName.value
  {
  }

  /** A user without an e-mail address makes the call throw before anything is written. */
  lemma NoEmailThrows(table: Table, user: User, newId: string)
    requires user.id !in table && user.emailAddresses == []
    ensures InitialProfileSpec(table, Some(user), newId) == (Threw, table)
  {
  }

  /** Idempotence: a second call for the same user returns the profile the
      first call returned and leaves the table as the first call left it. */
  lemma InitialProfileIdempotent(table: Table, user: User, id1: string, id2: string)
    requires KeyedByUser(table)
    requires InitialProfileSpec(table, Some(user), id1).0.Returned?
    ensures var (r1, t1) := InitialProfileSpec(table, Some(user), id1);
      InitialProfileSpec(t1, Some(user), id2) == (r1, t1)
  {
  }

  /** After find-or-create returns a profile, the lookup finds that profile. */
  lemma CurrentAfterInitial(table: Table, user: User, newId: string)
    requires KeyedByUser(table)
    requires InitialProfileSpec(table, Some(user), newId).0.Returned?
    ensures var (r, t) := InitialProfileSpec(table, Some(user), newId);
      KeyedByUser(t) && CurrentProfile(t, Some(user)) == Some(r.profile)
  {
  }
}
