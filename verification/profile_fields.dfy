/**
 * Turning request bodies into what the store receives: the partial field set
 * built by `POST /profile`, and the experience / education records built by
 * `PUT /profile/experience` and `PUT /profile/education`, together with the
 * required-field checks each handler declares.
 */
module ProfileFields {
  import opened Wrappers
  import opened JsText
  import opened Validation

  /** Authenticated user id, as resolved by the auth middleware. */
  type OwnerId = string

  datatype Platform = YouTube | Instagram | Facebook | Twitter | LinkedIn

  /** The `social` object: only platforms that were given a value have a key. */
  type Social = map<Platform, string>

  /** The keys `POST /profile` destructures from the request body. */
  datatype ProfileInput = ProfileInput(
    website: Option<string>,
    status: Option<string>,
    skills: Option<string>,
    youtube: Option<string>,
    instagram: Option<string>,
    facebook: Option<string>,
    twitter: Option<string>,
    linkedin: Option<string>)

  /** The body value read for one platform. */
  function SocialInput(p: ProfileInput, k: Platform): Option<string> {
    match k
    case YouTube => p.youtube
    case Instagram => p.instagram
    case Facebook => p.facebook
    case Twitter => p.twitter
    case LinkedIn => p.linkedin
  }

  /**
   * The update built from a request: `None` means the key is not in the
   * object, so a later `$set` leaves that field alone. `social` is always there.
   */
  datatype FieldSet = FieldSet(
    user: OwnerId,
    website: Option<string>,
    status: Option<string>,
    skills: Option<seq<string>>,
    social: Social)

  /**
   * `skills.split(',').map(skill => skill.trim())`: one entry per comma-separated
   * piece, in order, each trimmed, empty entries kept.
   */
  function ParseSkills(s: string): (r: seq<string>)
    ensures |r| == Count(s, ',') + 1
    ensures forall i :: 0 <= i < |r| ==> IsTrimmed(r[i]) && ',' !in r[i]
    ensures forall i :: 0 <= i < |r| ==> r[i] == Trim(Split(s, ',')[i])
  {
    var pieces := Split(s, ',');
    TrimAllKeepsOut(pieces, ',');
    TrimAll(pieces)
  }

  /** `pieces.map(piece => piece.trim())`. */
  function TrimAll(pieces: seq<string>): (r: seq<string>)
    ensures |r| == |pieces|
    ensures forall i :: 0 <= i < |r| ==> r[i] == Trim(pieces[i])
    decreases |pieces|
  {
    if |pieces| == 0 then [] else [Trim(pieces[0])] + TrimAll(pieces[1..])
  }

  /** A character no piece contains is in none of the trimmed pieces either. */
  lemma TrimAllKeepsOut(pieces: seq<string>, c: char)
    requires forall i :: 0 <= i < |pieces| ==> c !in pieces[i]
    ensures forall i :: 0 <= i < |pieces| ==> c !in TrimAll(pieces)[i]
  {
    forall i | 0 <= i < |pieces| ensures c !in TrimAll(pieces)[i] {
      TrimInfix(pieces[i]);
    }
  }

  /**
   * Skills given as comma-joined entries that are already trimmed and comma-free
   * come back as exactly those entries.
   */
  lemma ParseSkillsOfJoin(entries: seq<string>)
    requires |entries| > 0
    requires forall i :: 0 <= i < |entries| ==> IsTrimmed(entries[i]) && ',' !in entries[i]
    ensures ParseSkills(Join(entries, ',')) == entries
  {
    var joined := Join(entries, ',');
    SplitJoin(entries, ',');
    var r := ParseSkills(joined);
    forall i | 0 <= i < |entries| ensures r[i] == entries[i] {
      TrimOfTrimmed(entries[i]);
    }
  }

  lemma TrimAllTwo(a: string, b: string)
    ensures TrimAll([a, b]) == [Trim(a), Trim(b)]
  {
    var r := TrimAll([a, b]);
    assert |r| == 2 && r[0] == Trim(a) && r[1] == Trim(b);
  }

  lemma TrimAllThree(a: string, b: string, c: string)
    ensures TrimAll([a, b, c]) == [Trim(a), Trim(b), Trim(c)]
  {
    var r := TrimAll([a, b, c]);
    assert |r| == 3 && r[0] == Trim(a) && r[1] == Trim(b) && r[2] == Trim(c);
  }

  lemma TrimGoRust()
    ensures Trim("go") == "go" && Trim(" rust") == "rust"
  {
    TrimRust();
    TrimOfTrimmed("go");
  }

  lemma TrimRust()
    ensures Trim(" rust") == "rust"
  {
    assert " rust" == [' '] + "rust" + [];
    TrimPadded([' '], "rust", []);
  }

  lemma TrimAEmptyB()
    ensures Trim("a") == "a" && Trim("") == "" && Trim("b") == "b"
  {
    TrimOfTrimmed("a");
    TrimOfTrimmed("");
    TrimOfTrimmed("b");
  }

  lemma TrimSpacedAbc()
    ensures Trim("a") == "a" && Trim(" b ") == "b" && Trim("c") == "c"
  {
    assert " b " == [' '] + "b" + [' '];
    TrimPadded([' '], "b", [' ']);
    TrimOfTrimmed("a");
    TrimOfTrimmed("c");
  }

  /** `"go, rust"` gives `["go", "rust"]`: split on the comma, then trimmed. */
  lemma SkillsGoRust()
    ensures ParseSkills("go, rust") == ["go", "rust"]
  {
    assert "go, rust" == "go" + [','] + " rust";
    SplitTwo("go", " rust", ',');
    TrimAllTwo("go", " rust");
    TrimGoRust();
  }

  /** `"a, b ,c"` gives `["a", "b", "c"]`: whitespace on either side of a piece goes. */
  lemma SkillsSpacedAbc()
    ensures ParseSkills("a, b ,c") == ["a", "b", "c"]
  {
    assert "a, b ,c" == "a" + [','] + " b " + [','] + "c";
    SplitThree("a", " b ", "c", ',');
    TrimAllThree("a", " b ", "c");
    TrimSpacedAbc();
  }

  /** `"a,,b"` gives three entries: the empty piece is kept, not filtered out. */
  lemma SkillsEmptyMiddle()
    ensures ParseSkills("a,,b") == ["a", "", "b"]
  {
    assert "a,,b" == "a" + [','] + "" + [','] + "b";
    SplitThree("a", "", "b", ',');
    TrimAllThree("a", "", "b");
    TrimAEmptyB();
  }

  /**
   * The social object of an update, built key by key: a platform is present
   * exactly when its body value is truthy, and then it holds that value.
   */
  function BuildSocial(p: ProfileInput): (r: Social)
    ensures forall k :: k in r <==> Truthy(SocialInput(p, k))
    ensures forall k :: k in r ==> SocialInput(p, k) == Some(r[k])
  {
    var s0: Social := map[];
    var s1 := if Truthy(p.youtube) then s0[YouTube := p.youtube.value] else s0;
    var s2 := if Truthy(p.instagram) then s1[Instagram := p.instagram.value] else s1;
    var s3 := if Truthy(p.facebook) then s2[Facebook := p.facebook.value] else s2;
    var s4 := if Truthy(p.twitter) then s3[Twitter := p.twitter.value] else s3;
    if Truthy(p.linkedin) then s4[LinkedIn := p.linkedin.value] else s4
  }

  /**
   * The field set of `POST /profile`: always the owner, `website`, `status` and
   * `skills` only when their body value is truthy (skills parsed), and a fresh
   * social object.
   */
  function BuildFields(owner: OwnerId, p: ProfileInput): (r: FieldSet)
    ensures r.user == owner
    ensures r.website.Some? <==> Truthy(p.website)
    ensures r.website.Some? ==> r.website == p.website
    ensures r.status.Some? <==> Truthy(p.status)
    ensures r.status.Some? ==> r.status == p.status
    ensures r.skills.Some? <==> Truthy(p.skills)
    ensures r.skills.Some? ==> r.skills.value == ParseSkills(p.skills.value)
    ensures forall k :: k in r.social <==> Truthy(SocialInput(p, k))
    ensures forall k :: k in r.social ==> SocialInput(p, k) == Some(r.social[k])
  {
    FieldSet(
      owner,
      if Truthy(p.website) then p.website else None,
      if Truthy(p.status) then p.status else None,
      if Truthy(p.skills) then Some(ParseSkills(p.skills.value)) else None,
      BuildSocial(p))
  }

  /** The checks `POST /profile` declares, in declaration order (the message typo is the source's). */
  function ProfileChecks(p: ProfileInput): seq<Check> {
    [ Check("website", p.website, "website is required"),
      Check("status", p.status, "stauts is required"),
      Check("skills", p.skills, "skills is required") ]
  }

  /**
   * A profile body passes its checks exactly when website, status and skills
   * are all truthy; each one that is not yields its own error.
   */
  lemma ProfileChecksPass(p: ProfileInput)
    ensures Failures(ProfileChecks(p)) == [] <==> Truthy(p.website) && Truthy(p.status) && Truthy(p.skills)
    ensures !Truthy(p.status) ==> FieldError("status", "stauts is required") in Failures(ProfileChecks(p))
  {
    var cs := ProfileChecks(p);
    assert cs[0].value == p.website && cs[1].value == p.status && cs[2].value == p.skills;
    assert ErrorOf(cs[1]) == FieldError("status", "stauts is required");
  }

  /**
   * The record `PUT /profile/experience` builds: exactly the four body keys
   * `title`, `company`, `experience` (the description) and `from`.
   */
  datatype Experience = Experience(
    title: Option<string>,
    company: Option<string>,
    experience: Option<string>,
    from: Option<string>)

  /** The record `PUT /profile/education` builds: exactly `school`, `degree` and `fieldofstudy`. */
  datatype Education = Education(
    school: Option<string>,
    degree: Option<string>,
    fieldofstudy: Option<string>)

  function ExperienceChecks(e: Experience): seq<Check> {
    [ Check("title", e.title, "title should be entered"),
      Check("company", e.company, "company should be entered"),
      Check("experience", e.experience, "experience should be entered") ]
  }

  function EducationChecks(e: Education): seq<Check> {
    [ Check("school", e.school, "school should be entered"),
      Check("degree", e.degree, "degree should be entered"),
      Check("fieldofstudy", e.fieldofstudy, "fieldofstudy should be entered") ]
  }

  /** `from` is not checked: an experience passes with it missing. */
  lemma ExperienceChecksPass(e: Experience)
    ensures Failures(ExperienceChecks(e)) == [] <==> Truthy(e.title) && Truthy(e.company) && Truthy(e.experience)
  {
    var cs := ExperienceChecks(e);
    assert cs[0].value == e.title && cs[1].value == e.company && cs[2].value == e.experience;
  }

  lemma EducationChecksPass(e: Education)
    ensures Failures(EducationChecks(e)) == [] <==> Truthy(e.school) && Truthy(e.degree) && Truthy(e.fieldofstudy)
  {
    var cs := EducationChecks(e);
    assert cs[0].value == e.school && cs[1].value == e.degree && cs[2].value == e.fieldofstudy;
  }
}
