/**
 * The profile collection as an in-memory store keyed by owner, and the two
 * whole-profile mutations on it: the upsert of `POST /profile` (a `$set` of the
 * built field set onto an existing profile, or a new profile made of the field
 * set) and the removal of `DELETE /profile`.
 */
module ProfileStore {
  import opened Wrappers
  import opened Ledger
  import opened ProfileFields

  datatype Profile = Profile(
    user: OwnerId,
    website: Option<string>,
    status: Option<string>,
    skills: Option<seq<string>>,
    social: Social,
    experience: Ledger<Experience>,
    education: Ledger<Education>)

  /** At most one profile per owner: the store is a map from owner to profile. */
  type Store = map<OwnerId, Profile>

  /** Every stored profile is filed under its own owner. */
  predicate Consistent(store: Store) {
    forall o :: o in store ==> store[o].user == o
  }

  /** `$set` of a field set: keys present in it replace the stored value, absent keys are left alone. */
  function SetFields(p: Profile, fs: FieldSet): Profile {
    p.(user := fs.user,
       website := if fs.website.Some? then fs.website else p.website,
       status := if fs.status.Some? then fs.status else p.status,
       skills := if fs.skills.Some? then fs.skills else p.skills,
       social := fs.social)
  }

  /** `new Profile(profileFields)`: the field set's keys and nothing else; both ledgers empty. */
  function NewProfile(fs: FieldSet): Profile {
    Profile(fs.user, fs.website, fs.status, fs.skills, fs.social, [], [])
  }

  /**
   * Create-or-update for the field set's owner. On an existing profile every
   * field the set carries is overwritten, every field it lacks keeps its old
   * value, `social` becomes the set's object as a whole (no per-platform merge)
   * and the ledgers are untouched. On a new owner the profile holds exactly the
   * set's fields. No other owner's entry changes.
   */
  function Upsert(store: Store, fs: FieldSet): (r: Store)
    ensures r.Keys == store.Keys + {fs.user}
    ensures forall o :: o in store && o != fs.user ==> r[o] == store[o]
    ensures r[fs.user].user == fs.user && r[fs.user].social == fs.social
    ensures fs.website.Some? ==> r[fs.user].website == fs.website
    ensures fs.status.Some? ==> r[fs.user].status == fs.status
    ensures fs.skills.Some? ==> r[fs.user].skills == fs.skills
    ensures fs.user in store ==>
      var before := store[fs.user];
      var after := r[fs.user];
      && (fs.website.None? ==> after.website == before.website)
      && (fs.status.None? ==> after.status == before.status)
      && (fs.skills.None? ==> after.skills == before.skills)
      && after.experience == before.experience
      && after.education == before.education
    ensures fs.user !in store ==>
      var after := r[fs.user];
      && after.website == fs.website && after.status == fs.status && after.skills == fs.skills
      && after.experience == [] && after.education == []
    ensures Consistent(store) ==> Consistent(r)
  {
    var p := if fs.user in store then SetFields(store[fs.user], fs) else NewProfile(fs);
    store[fs.user := p]
  }

  /** The value of a field after two `$set`s: the later one if it carries the field. */
  function Later<T>(first: Option<T>, second: Option<T>): Option<T> {
    if second.Some? then second else first
  }

  /** One field set with the effect of applying `first` and then `second`. */
  function Combine(first: FieldSet, second: FieldSet): FieldSet {
    FieldSet(second.user, Later(first.website, second.website), Later(first.status, second.status),
             Later(first.skills, second.skills), second.social)
  }

  /**
   * Two upserts for one owner act as one upsert of the combined field set: a
   * field the second update does not carry keeps the first update's value, so
   * updates with disjoint fields both survive, while `social` is the second's.
   */
  lemma UpsertTwice(store: Store, first: FieldSet, second: FieldSet)
    requires first.user == second.user
    ensures Upsert(Upsert(store, first), second) == Upsert(store, Combine(first, second))
  {
    var o := first.user;
    var lhs := Upsert(Upsert(store, first), second);
    var rhs := Upsert(store, Combine(first, second));
    assert lhs.Keys == rhs.Keys;
    assert lhs[o] == rhs[o];
    forall k | k in lhs ensures lhs[k] == rhs[k] {
      if k != o { assert lhs[k] == store[k]; }
    }
  }

  /** Repeating an upsert changes nothing. */
  lemma UpsertIdempotent(store: Store, fs: FieldSet)
    ensures Upsert(Upsert(store, fs), fs) == Upsert(store, fs)
  {
    UpsertTwice(store, fs, fs);
    assert Combine(fs, fs) == fs;
  }

  /**
   * `social` is replaced, not merged: a platform the new field set leaves out
   * is gone afterwards even when the stored profile had it.
   */
  lemma UpsertDropsOmittedPlatform(store: Store, fs: FieldSet, k: Platform)
    requires fs.user in store && k in store[fs.user].social
    requires k !in fs.social
    ensures k !in Upsert(store, fs)[fs.user].social
  {
  }

  /** `DELETE /profile`: the owner's profile is gone and every other entry stays. */
  function Delete(store: Store, owner: OwnerId): (r: Store)
    ensures owner !in r
    ensures r.Keys == store.Keys - {owner}
    ensures forall o :: o in r ==> r[o] == store[o]
    ensures Consistent(store) ==> Consistent(r)
  {
    map o | o in store && o != owner :: store[o]
  }

  /** Deleting after an upsert removes what the upsert put there, and nothing else. */
  lemma DeleteUndoesCreate(store: Store, fs: FieldSet)
    requires fs.user !in store
    ensures Delete(Upsert(store, fs), fs.user) == store
  {
    var r := Delete(Upsert(store, fs), fs.user);
    assert r.Keys == store.Keys;
  }
}
