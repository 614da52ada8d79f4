/**
 * The handlers of the profile router as transitions of the store. Each takes
 * the authenticated owner id (and the body or path values it reads) and gives
 * the store afterwards with the reply: the profile, or why there is none.
 * A failed request never changes the store.
 */
module ProfileRoutes {
  import opened Wrappers
  import opened JsText
  import opened Validation
  import opened Ledger
  import opened ProfileFields
  import opened ProfileStore

  /**
   * Invalid: the required-field checks failed (status 400 with the errors).
   * NoProfile: the owner has no profile (status 400, "no profile").
   * ServerError: the handler threw (status 500); here that is always the
   * dereference of the missing profile in the ledger handlers.
   */
  datatype Failure = Invalid(errors: seq<FieldError>) | NoProfile | ServerError

  datatype Outcome<T> = Ok(value: T) | Fail(failure: Failure)

  /** The store after a request, and the reply to it. */
  datatype Step<T> = Step(store: Store, reply: Outcome<T>)

  /**
   * `GET /profile/me` and `GET /profile/user/:user_id`: the owner's profile, or
   * NoProfile when there is none.
   */
  function GetProfile(store: Store, owner: OwnerId): (r: Outcome<Profile>)
    ensures r.Ok? <==> owner in store
    ensures r.Fail? ==> r.failure == NoProfile
    ensures r.Ok? ==> r.value == store[owner]
    ensures r.Ok? && Consistent(store) ==> r.value.user == owner
  {
    if owner in store then Ok(store[owner]) else Fail(NoProfile)
  }

  /**
   * `POST /profile`: the checks first; when they pass, the upsert of the built
   * field set, answered with the owner's profile afterwards.
   */
  function Post(store: Store, owner: OwnerId, input: ProfileInput): (r: Step<Profile>)
    ensures r.reply.Ok? <==> Truthy(input.website) && Truthy(input.status) && Truthy(input.skills)
    ensures r.reply.Fail? ==> r.store == store && r.reply.failure == Invalid(Failures(ProfileChecks(input)))
    ensures r.reply.Ok? ==>
      && r.store == Upsert(store, BuildFields(owner, input))
      && r.reply.value == r.store[owner]
      && r.reply.value.website == input.website
      && r.reply.value.status == input.status
      && r.reply.value.skills == Some(ParseSkills(input.skills.value))
    ensures Consistent(store) ==> Consistent(r.store)
  {
    ProfileChecksPass(input);
    var errors := Failures(ProfileChecks(input));
    if errors != [] then Step(store, Fail(Invalid(errors)))
    else
      var after := Upsert(store, BuildFields(owner, input));
      Step(after, Ok(after[owner]))
  }

  /**
   * `PUT /profile/experience`: the checks first; then the new record, under the
   * given id, goes to the front of the owner's experience ledger and nothing
   * else changes. With no profile the handler throws and the store is unchanged.
   */
  function AddExperience(store: Store, owner: OwnerId, id: RecordId, e: Experience): (r: Step<Profile>)
    ensures r.reply.Ok? <==> Truthy(e.title) && Truthy(e.company) && Truthy(e.experience) && owner in store
    ensures r.reply.Fail? ==> r.store == store
    ensures !(Truthy(e.title) && Truthy(e.company) && Truthy(e.experience)) ==> r.reply.Fail? && r.reply.failure.Invalid?
    ensures r.reply.Fail? && r.reply.failure.Invalid? ==> r.reply.failure.errors == Failures(ExperienceChecks(e))
    ensures Truthy(e.title) && Truthy(e.company) && Truthy(e.experience) && owner !in store ==> r.reply == Fail(ServerError)
    ensures r.reply.Ok? ==>
      var before := store[owner];
      var after := r.reply.value;
      && r.store == store[owner := after]
      && |after.experience| == |before.experience| + 1
      && after.experience[0] == Entry(id, e)
      && after.experience[1..] == before.experience
      && after == before.(experience := after.experience)
    ensures Consistent(store) ==> Consistent(r.store)
  {
    ExperienceChecksPass(e);
    var errors := Failures(ExperienceChecks(e));
    if errors != [] then Step(store, Fail(Invalid(errors)))
    else if owner !in store then Step(store, Fail(ServerError))
    else
      var before := store[owner];
      var after := before.(experience := Unshift(before.experience, Entry(id, e)));
      Step(store[owner := after], Ok(after))
  }

  /** `PUT /profile/education`: as for experience, on the education ledger. */
  function AddEducation(store: Store, owner: OwnerId, id: RecordId, e: Education): (r: Step<Profile>)
    ensures r.reply.Ok? <==> Truthy(e.school) && Truthy(e.degree) && Truthy(e.fieldofstudy) && owner in store
    ensures r.reply.Fail? ==> r.store == store
    ensures !(Truthy(e.school) && Truthy(e.degree) && Truthy(e.fieldofstudy)) ==> r.reply.Fail? && r.reply.failure.Invalid?
    ensures r.reply.Fail? && r.reply.failure.Invalid? ==> r.reply.failure.errors == Failures(EducationChecks(e))
    ensures Truthy(e.school) && Truthy(e.degree) && Truthy(e.fieldofstudy) && owner !in store ==> r.reply == Fail(ServerError)
    ensures r.reply.Ok? ==>
      var before := store[owner];
      var after := r.reply.value;
      && r.store == store[owner := after]
      && |after.education| == |before.education| + 1
      && after.education[0] == Entry(id, e)
      && after.education[1..] == before.education
      && after == before.(education := after.education)
    ensures Consistent(store) ==> Consistent(r.store)
  {
    EducationChecksPass(e);
    var errors := Failures(EducationChecks(e));
    if errors != [] then Step(store, Fail(Invalid(errors)))
    else if owner !in store then Step(store, Fail(ServerError))
    else
      var before := store[owner];
      var after := before.(education := Unshift(before.education, Entry(id, e)));
      Step(store[owner := after], Ok(after))
  }

  /**
   * `DELETE /profile/experience/:exp_id`: the owner's experience ledger after
   * removal by id, including the removal of the last record when the id is not
   * there; every other field stays. With no profile the handler throws.
   */
  function RemoveExperience(store: Store, owner: OwnerId, id: RecordId): (r: Step<Profile>)
    ensures r.reply.Ok? <==> owner in store
    ensures r.reply.Fail? ==> r.store == store && r.reply.failure == ServerError
    ensures r.reply.Ok? ==>
      var before := store[owner];
      var after := r.reply.value;
      && r.store == store[owner := after]
      && after.experience == RemoveById(before.experience, id)
      && after == before.(experience := after.experience)
    ensures Consistent(store) ==> Consistent(r.store)
  {
    if owner !in store then Step(store, Fail(ServerError))
    else
      var before := store[owner];
      var after := before.(experience := RemoveById(before.experience, id));
      Step(store[owner := after], Ok(after))
  }

  /** `DELETE /profile/education/:edu_id`: as for experience, on the education ledger. */
  function RemoveEducation(store: Store, owner: OwnerId, id: RecordId): (r: Step<Profile>)
    ensures r.reply.Ok? <==> owner in store
    ensures r.reply.Fail? ==> r.store == store && r.reply.failure == ServerError
    ensures r.reply.Ok? ==>
      var before := store[owner];
      var after := r.reply.value;
      && r.store == store[owner := after]
      && after.education == RemoveById(before.education, id)
      && after == before.(education := after.education)
    ensures Consistent(store) ==> Consistent(r.store)
  {
    if owner !in store then Step(store, Fail(ServerError))
    else
      var before := store[owner];
      var after := before.(education := RemoveById(before.education, id));
      Step(store[owner := after], Ok(after))
  }

  /** The message `DELETE /profile` answers with. */
  const UserDeleted := "user deleted"

  /**
   * `DELETE /profile`: the owner's profile is removed and every other profile
   * stays. The reply is the success message whether or not there was a profile
   * to remove; with none, the store is unchanged.
   */
  function DeleteProfile(store: Store, owner: OwnerId): (r: Step<string>)
    ensures r.reply == Ok(UserDeleted)
    ensures owner !in r.store
    ensures r.store.Keys == store.Keys - {owner}
    ensures forall o :: o in r.store ==> r.store[o] == store[o]
    ensures owner !in store ==> r.store == store
    ensures Consistent(store) ==> Consistent(r.store)
  {
    Step(Delete(store, owner), Ok(UserDeleted))
  }

  /** After a successful `POST /profile` the owner's profile is found, and it is the one returned. */
  lemma GetAfterPost(store: Store, owner: OwnerId, input: ProfileInput)
    requires Post(store, owner, input).reply.Ok?
    ensures GetProfile(Post(store, owner, input).store, owner) == Post(store, owner, input).reply
  {
  }

  /** After `DELETE /profile` the owner has no profile. */
  lemma GetAfterDelete(store: Store, owner: OwnerId)
    ensures GetProfile(DeleteProfile(store, owner).store, owner) == Fail(NoProfile)
  {
  }

  /** Overwriting an entry and then putting its old value back restores the map. */
  lemma RestoreEntry<K, V>(m: map<K, V>, k: K, v: V)
    requires k in m
    ensures m[k := v][k := m[k]] == m
  {
  }

  /**
   * Adding an experience and then removing it by its id gives back the store
   * as it was.
   */
  lemma RemoveUndoesAddExperience(store: Store, owner: OwnerId, id: RecordId, e: Experience)
    requires AddExperience(store, owner, id, e).reply.Ok?
    ensures RemoveExperience(AddExperience(store, owner, id, e).store, owner, id).store == store
  {
    var before := store[owner];
    var added := AddExperience(store, owner, id, e);
    var after := added.reply.value;
    assert after.experience == Unshift(before.experience, Entry(id, e));
    RemoveUndoesUnshift(before.experience, Entry(id, e));
    var removed := RemoveExperience(added.store, owner, id);
    assert removed.reply.value == before;
    assert added.store == store[owner := after];
    assert removed.store == added.store[owner := before];
    RestoreEntry(store, owner, after);
  }

  /** The same for education. */
  lemma RemoveUndoesAddEducation(store: Store, owner: OwnerId, id: RecordId, e: Education)
    requires AddEducation(store, owner, id, e).reply.Ok?
    ensures RemoveEducation(AddEducation(store, owner, id, e).store, owner, id).store == store
  {
    var before := store[owner];
    var added := AddEducation(store, owner, id, e);
    var after := added.reply.value;
    assert after.education == Unshift(before.education, Entry(id, e));
    RemoveUndoesUnshift(before.education, Entry(id, e));
    var removed := RemoveEducation(added.store, owner, id);
    assert removed.reply.value == before;
    assert added.store == store[owner := after];
    assert removed.store == added.store[owner := before];
    RestoreEntry(store, owner, after);
  }

  /** The field set the session below posts. */
  lemma BuildExample()
    ensures BuildFields("u1", ProfileInput(Some("a.com"), Some("dev"), Some("go, rust"), None, None, None, None, None))
      == FieldSet("u1", Some("a.com"), Some("dev"), Some(["go", "rust"]), map[])
  {
    var input := ProfileInput(Some("a.com"), Some("dev"), Some("go, rust"), None, None, None, None, None);
    var fs := BuildFields("u1", input);
    SkillsGoRust();
    assert fs.social == map[] by {
      assert forall k :: k !in fs.social;
    }
  }

  /** The first step of the session below: the profile the post creates. */
  lemma PostExample()
    ensures
      var input := ProfileInput(Some("a.com"), Some("dev"), Some("go, rust"), None, None, None, None, None);
      var p1 := Profile("u1", Some("a.com"), Some("dev"), Some(["go", "rust"]), map[], [], []);
      Post(map[], "u1", input) == Step(map["u1" := p1], Ok(p1))
  {
    BuildExample();
  }

  /**
   * A whole session for one owner: post website "a.com", status "dev" and skills
   * "go, rust", add one experience, then read the profile back.
   */
  lemma PostAddGetExample(id: RecordId)
    ensures
      var input := ProfileInput(Some("a.com"), Some("dev"), Some("go, rust"), None, None, None, None, None);
      var exp := Experience(Some("Eng"), Some("X"), Some("..."), Some("2020"));
      var s1 := Post(map[], "u1", input).store;
      var s2 := AddExperience(s1, "u1", id, exp).store;
      GetProfile(s2, "u1")
        == Ok(Profile("u1", Some("a.com"), Some("dev"), Some(["go", "rust"]), map[], [Entry(id, exp)], []))
  {
    PostExample();
    var p1 := Profile("u1", Some("a.com"), Some("dev"), Some(["go", "rust"]), map[], [], []);
    var exp := Experience(Some("Eng"), Some("X"), Some("..."), Some("2020"));
    AddToFreshProfile(p1, id, exp);
  }

  /** Adding a valid experience to a profile with none gives a one-record ledger. */
  lemma AddToFreshProfile(p: Profile, id: RecordId, e: Experience)
    requires p.experience == []
    requires Truthy(e.title) && Truthy(e.company) && Truthy(e.experience)
    ensures var added := AddExperience(map[p.user := p], p.user, id, e);
      added.store == map[p.user := p.(experience := [Entry(id, e)])]
  {
    var added := AddExperience(map[p.user := p], p.user, id, e);
    assert added.reply.value == p.(experience := [Entry(id, e)]);
  }
}
