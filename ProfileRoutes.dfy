/** The handlers of routes/api/profile.js. The private ones take the caller's
    id, which the auth middleware has already established. */
module ProfileRoutes {
  import opened Model
  import opened Accounts
  import opened ProfileFields
  import opened Store

  /** GET api/profile/me. */
  function GetOwnProfile(profiles: map<UserId, Profile>, caller: UserId): (r: Response)
    ensures r.status == 400 <==> caller !in profiles
    ensures r.status == 400 ==> r.body == Msg("There is no profile for this user")
    ensures r.status != 400 ==> r == Response(200, ProfileBody(profiles[caller]))
  {
    if caller in profiles then Response(200, ProfileBody(profiles[caller]))
    else Response(400, Msg("There is no profile for this user"))
  }

  /** POST api/profile: creates the caller's profile, or updates it with the
      fields the request carries. */
  method UpsertProfile(db: Db, caller: UserId, req: ProfileRequest) returns (res: Response)
    requires db.Valid()
    modifies db`profiles
    ensures db.Valid()
    ensures ProfileErrors(req) != [] ==>
      res == Response(400, Errors(ProfileErrors(req))) && db.profiles == old(db.profiles)
    ensures ProfileErrors(req) == [] ==>
      && db.profiles == Upsert(old(db.profiles), FieldsOf(caller, req))
      && res == Response(200, ProfileBody(db.profiles[caller]))
  {
    var errs := ProfileErrors(req);
    if errs != [] {
      return Response(400, Errors(errs));
    }
    var fields := BuildProfileFields(caller, req);
    var profile;
    if caller in db.profiles {
      profile := SetFields(db.profiles[caller], fields);
    } else {
      profile := NewProfile(fields);
    }
    db.profiles := db.profiles[caller := profile];
    res := Response(200, ProfileBody(profile));
  }

  /** GET api/profile: every profile (the order of the list is not modelled). */
  function ListProfiles(profiles: map<UserId, Profile>): (r: Response)
    ensures r.status == 200 && r.body.ProfilesBody?
    ensures forall p :: p in r.body.profiles <==> exists k :: k in profiles && profiles[k] == p
  {
    Response(200, ProfilesBody(profiles.Values))
  }

  /** GET api/profile/user/:user_id. */
  function GetProfileByUser(profiles: map<UserId, Profile>, userId: UserId): (r: Response)
    ensures r.status == 400 <==> userId !in profiles
    ensures r.status == 400 ==> r.body == Msg("Profile not found")
    ensures r.status != 400 ==> r == Response(200, ProfileBody(profiles[userId]))
  {
    if userId in profiles then Response(200, ProfileBody(profiles[userId]))
    else Response(400, Msg("Profile not found"))
  }

  /** DELETE api/profile: removes the caller's profile and the caller's user
      record; the caller's posts stay. */
  method DeleteAccount(db: Db, caller: UserId) returns (res: Response)
    requires db.Valid()
    modifies db`profiles, db`users
    ensures db.Valid()
    ensures caller !in db.profiles && caller !in db.users
    ensures db.profiles == old(db.profiles) - {caller}
    ensures db.users == old(db.users) - {caller}
    ensures res == Response(200, JsonString("User deleted"))
  {
    RemoveKeepsEmailsUnique(db.users, caller);
    db.profiles := db.profiles - {caller};
    db.users := db.users - {caller};
    res := Response(200, JsonString("User deleted"));
  }

  /** PUT api/profile/experience: puts a new entry at the front of the caller's
      experience list. */
  method AddExperience(db: Db, caller: UserId, req: ExperienceRequest) returns (res: Response)
    requires db.Valid()
    modifies db`profiles, db`nextId
    ensures db.Valid()
    ensures ExperienceErrors(req) != [] ==>
      res == Response(400, Errors(ExperienceErrors(req))) && db.profiles == old(db.profiles)
    ensures ExperienceErrors(req) == [] && caller !in old(db.profiles) ==>
      res == Response(400, Text("Server Error")) && db.profiles == old(db.profiles)
    ensures ExperienceErrors(req) == [] && caller in old(db.profiles) ==>
      var p := old(db.profiles)[caller];
      var e := Experience(old(db.nextId), req.title.value, req.company.value, req.location,
                          req.from.value, req.to, req.current, req.description);
      && (forall i :: 0 <= i < |p.experience| ==> p.experience[i].id != e.id)
      && db.profiles == old(db.profiles)[caller := p.(experience := [e] + p.experience)]
      && res == Response(200, ProfileBody(db.profiles[caller]))
  {
    var errs := ExperienceErrors(req);
    if errs != [] {
      return Response(400, Errors(errs));
    }
    if caller !in db.profiles {
      // `profile.experience` on a missing profile throws; the handler answers 400
      return Response(400, Text("Server Error"));
    }
    var profile := db.profiles[caller];
    var id := db.NewId();
    var e := Experience(id, req.title.value, req.company.value, req.location,
                        req.from.value, req.to, req.current, req.description);
    profile := profile.(experience := [e] + profile.experience);
    db.profiles := db.profiles[caller := profile];
    res := Response(200, ProfileBody(profile));
  }

  /** DELETE api/profile/experience/:exp_id: removes the entry with that id; when
      there is none, `splice(-1, 1)` removes the last entry. */
  method DeleteExperience(db: Db, caller: UserId, expId: ExperienceId) returns (res: Response)
    requires db.Valid()
    modifies db`profiles
    ensures db.Valid()
    ensures caller !in old(db.profiles) ==>
      res == Response(500, Text("Server Error")) && db.profiles == old(db.profiles)
    ensures caller in old(db.profiles) ==>
      var p := old(db.profiles)[caller];
      && db.profiles == old(db.profiles)[caller := p.(experience := RemoveExperience(p.experience, expId))]
      && res == Response(200, ProfileBody(db.profiles[caller]))
  {
    if caller !in db.profiles {
      // `profile.experience` on a missing profile throws
      return Response(500, Text("Server Error"));
    }
    var profile := db.profiles[caller];
    profile := profile.(experience := RemoveExperience(profile.experience, expId));
    db.profiles := db.profiles[caller := profile];
    res := Response(200, ProfileBody(profile));
  }
}
