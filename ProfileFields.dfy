/** The profile logic of routes/api/profile.js that does not touch the store:
    request validation, the `profileFields` object, the skills transform, the
    `$set` update, and the experience list. */
module ProfileFields {
  import opened Model
  import opened JsString
  import JsArray

  // ----- the request -----

  /** The body of POST api/profile. */
  datatype ProfileRequest = ProfileRequest(
    company: Option<string>,
    website: Option<string>,
    location: Option<string>,
    bio: Option<string>,
    status: Option<string>,
    githubusername: Option<string>,
    skills: Option<string>,
    youtube: Option<string>,
    facebook: Option<string>,
    twitter: Option<string>,
    instagram: Option<string>,
    linkedin: Option<string>)

  /** The checks of POST api/profile, in their declared order. */
  function ProfileErrors(req: ProfileRequest): (errs: seq<string>)
    ensures errs == [] <==> Present(req.status) && Present(req.skills)
    ensures "Status is required" in errs <==> !Present(req.status)
    ensures "Skills is required" in errs <==> !Present(req.skills)
  {
    Require(Present(req.status), "Status is required")
      + Require(Present(req.skills), "Skills is required")
  }

  // ----- skills -----

  /** `skills.split(',').map(skill => skill.trim())`: one skill per comma-separated
      piece, none holding a comma or surrounding whitespace. */
  function Skills(raw: string): (r: seq<string>)
    ensures |r| == multiset(raw)[','] + 1
    ensures forall i :: 0 <= i < |r| ==> r[i] == Trim(Split(raw, ',')[i])
    ensures forall i :: 0 <= i < |r| ==> Trimmed(r[i]) && ',' !in r[i]
  {
    var parts := Split(raw, ',');
    var r := seq(|parts|, i requires 0 <= i < |parts| => Trim(parts[i]));
    forall i | 0 <= i < |r|
      ensures ',' !in r[i]
    {
      TrimKeepsOut(parts[i], ',');
    }
    r
  }

  /** A skills string without whitespace is given back by joining its skills. */
  lemma SkillsJoin(raw: string)
    requires forall i :: 0 <= i < |raw| ==> !IsWhitespace(raw[i])
    ensures Join(Skills(raw), ',') == raw
  {
    var parts := Split(raw, ',');
    forall i | 0 <= i < |parts|
      ensures Trim(parts[i]) == parts[i]
    {
      SplitKeepsChars(raw, ',');
      forall j | 0 <= j < |parts[i]|
        ensures !IsWhitespace(parts[i][j])
      {
        assert parts[i][j] in raw;
        var k :| 0 <= k < |raw| && raw[k] == parts[i][j];
      }
      TrimNoWhitespace(parts[i]);
    }
    assert Skills(raw) == parts;
    JoinSplit(raw, ',');
  }

  // ----- profileFields -----

  /** The `profileFields` object: `user` and the fields that were truthy, `skills`
      as the skills list, and the `social` sub-object built the same way. */
  datatype Fields = Fields(
    user: UserId,
    company: Option<string>,
    website: Option<string>,
    location: Option<string>,
    bio: Option<string>,
    status: Option<string>,
    githubusername: Option<string>,
    skills: Option<seq<string>>,
    social: Social)

  /** `if (x) fields.x = x`: the field is set exactly when the request's is truthy,
      and then to the request's value. */
  predicate CopiedIfTruthy(given: Option<string>, copied: Option<string>)
  {
    && (copied.Some? <==> Present(given))
    && (copied.Some? ==> copied == given)
  }

  function IfTruthy(given: Option<string>): (copied: Option<string>)
    ensures CopiedIfTruthy(given, copied)
  {
    if Present(given) then given else None
  }

  /** What `profileFields` holds for a request by `caller`. */
  function FieldsOf(caller: UserId, req: ProfileRequest): (f: Fields)
    ensures f.user == caller
    ensures CopiedIfTruthy(req.company, f.company) && CopiedIfTruthy(req.website, f.website)
    ensures CopiedIfTruthy(req.location, f.location) && CopiedIfTruthy(req.bio, f.bio)
    ensures CopiedIfTruthy(req.status, f.status)
    ensures CopiedIfTruthy(req.githubusername, f.githubusername)
    ensures f.skills.Some? <==> Present(req.skills)
    ensures f.skills.Some? ==> f.skills.value == Skills(req.skills.value)
    ensures CopiedIfTruthy(req.facebook, f.social.facebook)
    ensures CopiedIfTruthy(req.instagram, f.social.instagram)
    ensures CopiedIfTruthy(req.linkedin, f.social.linkedin)
    ensures CopiedIfTruthy(req.twitter, f.social.twitter)
    ensures CopiedIfTruthy(req.youtube, f.social.youtube)
  {
    Fields(
      caller,
      IfTruthy(req.company), IfTruthy(req.website), IfTruthy(req.location), IfTruthy(req.bio),
      IfTruthy(req.status), IfTruthy(req.githubusername),
      if Present(req.skills) then Some(Skills(req.skills.value)) else None,
      Social(
        IfTruthy(req.youtube), IfTruthy(req.twitter), IfTruthy(req.facebook),
        IfTruthy(req.linkedin), IfTruthy(req.instagram)))
  }

  /** Builds `profileFields` one conditional assignment at a time, as the handler does. */
  method BuildProfileFields(caller: UserId, req: ProfileRequest) returns (f: Fields)
    ensures f == FieldsOf(caller, req)
  {
    f := Fields(caller, None, None, None, None, None, None, None, NoSocial);
    if Present(req.company) { f := f.(company := req.company); }
    if Present(req.website) { f := f.(website := req.website); }
    if Present(req.location) { f := f.(location := req.location); }
    if Present(req.bio) { f := f.(bio := req.bio); }
    assert f.(status := None, githubusername := None) == FieldsOf(caller, req).(status := None, githubusername := None, skills := None, social := NoSocial);
    if Present(req.status) { f := f.(status := req.status); }
    if Present(req.githubusername) { f := f.(githubusername := req.githubusername); }
    if Present(req.skills) { f := f.(skills := Some(Skills(req.skills.value))); }
    assert f == FieldsOf(caller, req).(social := NoSocial);
    var social := NoSocial;
    if Present(req.facebook) { social := social.(facebook := req.facebook); }
    if Present(req.instagram) { social := social.(instagram := req.instagram); }
    if Present(req.linkedin) { social := social.(linkedin := req.linkedin); }
    assert social.(twitter := None, youtube := None) == FieldsOf(caller, req).social.(twitter := None, youtube := None);
    if Present(req.twitter) { social := social.(twitter := req.twitter); }
    if Present(req.youtube) { social := social.(youtube := req.youtube); }
    f := f.(social := social);
  }

  // ----- create or update -----

  /** A `$set` of one field: a given value replaces, an absent one keeps. */
  predicate SetOrKept(given: Option<string>, before: Option<string>, after: Option<string>)
  {
    after == if given.Some? then given else before
  }

  /** `findOneAndUpdate(..., { $set: fields })` on an existing profile: every
      field present in `fields` replaces the stored one, the others are kept,
      `social` is replaced as a whole, and the experience list is untouched. */
  function SetFields(p: Profile, f: Fields): (r: Profile)
    ensures r.user == f.user && r.social == f.social && r.experience == p.experience
    ensures SetOrKept(f.company, p.company, r.company) && SetOrKept(f.website, p.website, r.website)
    ensures SetOrKept(f.location, p.location, r.location) && SetOrKept(f.bio, p.bio, r.bio)
    ensures SetOrKept(f.status, p.status, r.status)
    ensures SetOrKept(f.githubusername, p.githubusername, r.githubusername)
    ensures r.skills == if f.skills.Some? then f.skills.value else p.skills
  {
    p.(
      user := f.user,
      company := if f.company.Some? then f.company else p.company,
      website := if f.website.Some? then f.website else p.website,
      location := if f.location.Some? then f.location else p.location,
      bio := if f.bio.Some? then f.bio else p.bio,
      status := if f.status.Some? then f.status else p.status,
      githubusername := if f.githubusername.Some? then f.githubusername else p.githubusername,
      skills := if f.skills.Some? then f.skills.value else p.skills,
      social := f.social)
  }

  /** A profile with nothing but its owner: the schema's defaults. */
  function Blank(owner: UserId): Profile
  {
    Profile(owner, None, None, None, None, None, None, [], NoSocial, [])
  }

  /** `new Profile(fields)`: the same profile an update of a blank one gives. */
  function NewProfile(f: Fields): (r: Profile)
    ensures r == SetFields(Blank(f.user), f)
  {
    Profile(
      f.user, f.company, f.website, f.location, f.bio, f.status, f.githubusername,
      if f.skills.Some? then f.skills.value else [],
      f.social, [])
  }

  /** The profiles after the upsert by `f.user`: the one profile of that user is
      updated if it exists and created otherwise; no other profile changes. */
  function Upsert(profiles: map<UserId, Profile>, f: Fields): (r: map<UserId, Profile>)
    ensures r.Keys == profiles.Keys + {f.user}
    ensures forall k :: k in profiles && k != f.user ==> r[k] == profiles[k]
    ensures r[f.user].user == f.user
    ensures f.user in profiles ==> r[f.user].experience == profiles[f.user].experience
    ensures f.user !in profiles ==> r[f.user].experience == []
  {
    profiles[f.user := if f.user in profiles then SetFields(profiles[f.user], f) else NewProfile(f)]
  }

  /** Sending the same profile request twice leaves what sending it once leaves. */
  lemma UpsertIdempotent(profiles: map<UserId, Profile>, f: Fields)
    ensures Upsert(Upsert(profiles, f), f) == Upsert(profiles, f)
  {
    var once := Upsert(profiles, f);
    assert SetFields(once[f.user], f) == once[f.user];
  }

  // ----- experience -----

  /** The body of PUT api/profile/experience. */
  datatype ExperienceRequest = ExperienceRequest(
    title: Option<string>,
    company: Option<string>,
    location: Option<string>,
    from: Option<string>,
    to: Option<string>,
    current: Option<bool>,
    description: Option<string>)

  /** The checks of PUT api/profile/experience, in their declared order. */
  function ExperienceErrors(req: ExperienceRequest): (errs: seq<string>)
    ensures errs == [] <==> Present(req.title) && Present(req.from) && Present(req.company)
    ensures "title is Required" in errs <==> !Present(req.title)
    ensures "from is Required" in errs <==> !Present(req.from)
    ensures "company is Required" in errs <==> !Present(req.company)
  {
    Require(Present(req.title), "title is Required")
      + Require(Present(req.from), "from is Required")
      + Require(Present(req.company), "company is Required")
  }

  /** `experience.map(item => item.id).indexOf(id)`. */
  function ExperienceIndex(xs: seq<Experience>, id: ExperienceId): (r: int)
    ensures -1 <= r < |xs|
    ensures r == -1 <==> forall i :: 0 <= i < |xs| ==> xs[i].id != id
    ensures 0 <= r ==> xs[r].id == id && forall j :: 0 <= j < r ==> xs[j].id != id
  {
    JsArray.FindIndex(xs, (x: Experience) => x.id == id)
  }

  /** `experience.splice(removeIndex, 1)`: a present id removes exactly its entry;
      an absent id gives index -1, and `splice(-1, 1)` removes the last entry. */
  function RemoveExperience(xs: seq<Experience>, id: ExperienceId): (r: seq<Experience>)
    ensures var i := ExperienceIndex(xs, id);
      0 <= i ==> |r| == |xs| - 1 && r == xs[..i] + xs[i + 1..]
    ensures ExperienceIndex(xs, id) == -1 ==> r == if xs == [] then [] else xs[..|xs| - 1]
  {
    var i := ExperienceIndex(xs, id);
    if 0 <= i then
      JsArray.SpliceAt(xs, i);
      JsArray.Splice(xs, i)
    else
      JsArray.SpliceMinusOne(xs);
      JsArray.Splice(xs, i)
  }

  /** An entry added at the front under a fresh id is the one its delete removes. */
  lemma AddThenRemoveExperience(xs: seq<Experience>, e: Experience)
    requires forall i :: 0 <= i < |xs| ==> xs[i].id != e.id
    ensures RemoveExperience([e] + xs, e.id) == xs
  {
    assert ([e] + xs)[0].id == e.id;
  }
}
