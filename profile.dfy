/** The profile routes: read the caller's profile or another user's,
    create-or-update the caller's profile from the request body, delete the
    profile together with its user, and add or remove experience entries. */
module Profiles {
  import opened Wrappers
  import opened Store
  import opened JsArray
  import Skills

  const StatusRequired := "Status is required"
  const SkillsRequired := "Skills is required"
  const TitleRequired := "Title is requires"
  const FromRequired := "From date is requires"
  const CompanyRequired := "Company is requires"
  const NoProfileForUser := "There is no profile for this user"
  const ProfileNotFound := "Profile not found"
  const UserDeleted := "User Deleted"
  /** Answer of the corrected experience deletion only. */
  const ExperienceNotFound := "Experience not found"

  /** The body of POST /api/profile; "" stands for an absent or falsy value. */
  datatype ProfileRequest = ProfileRequest(
    company: string, website: string, location: string, bio: string,
    status: string, githubusername: string, skills: string,
    youtube: string, facebook: string, twitter: string, instagram: string, linkedin: string)

  /** The `profileFields` object handed to the store: the owner, the scalar
      fields that were supplied, the parsed skills if supplied, and the
      `social` sub-object. */
  datatype ProfileFields = ProfileFields(user: Id, fields: map<string, string>,
                                         skills: Option<seq<string>>, social: map<string, string>)

  const ScalarKeys: set<string> := {"company", "website", "location", "bio", "status", "githubusername"}
  const SocialKeys: set<string> := {"youtube", "twitter", "facebook", "linkedin", "instagram"}

  /** The request body's value under `key`. */
  function BodyField(req: ProfileRequest, key: string): string {
    if key == "company" then req.company
    else if key == "website" then req.website
    else if key == "location" then req.location
    else if key == "bio" then req.bio
    else if key == "status" then req.status
    else if key == "githubusername" then req.githubusername
    else if key == "youtube" then req.youtube
    else if key == "twitter" then req.twitter
    else if key == "facebook" then req.facebook
    else if key == "linkedin" then req.linkedin
    else if key == "instagram" then req.instagram
    else ""
  }

  /** The entries of the body among `keys` whose value is truthy. */
  function Supplied(req: ProfileRequest, keys: set<string>): map<string, string> {
    map k | k in keys && BodyField(req, k) != "" :: BodyField(req, k)
  }

  /** Looking at one more key adds it exactly when its value is truthy. */
  lemma SuppliedStep(req: ProfileRequest, keys: set<string>, key: string)
    ensures Supplied(req, keys + {key}) ==
      if BodyField(req, key) != "" then Supplied(req, keys)[key := BodyField(req, key)] else Supplied(req, keys)
  {
  }

  /** What `profileFields` should hold: each scalar field and each social
      link exactly when the body supplies a truthy value for it. */
  function ProfileFieldsOf(caller: Id, req: ProfileRequest): ProfileFields {
    ProfileFields(
      caller,
      Supplied(req, ScalarKeys),
      if req.skills != "" then Some(Skills.ParseSkills(req.skills)) else None,
      Supplied(req, SocialKeys))
  }

  /** The field map always names the caller as owner and always has a
      `social` map; a field or link is in it exactly when supplied truthy,
      and then with the supplied value. */
  lemma ProfileFieldsPresence(caller: Id, req: ProfileRequest)
    ensures var pf := ProfileFieldsOf(caller, req);
      && pf.user == caller
      && pf.fields.Keys <= ScalarKeys && pf.social.Keys <= SocialKeys
      && (forall k :: k in ScalarKeys ==> (k in pf.fields <==> BodyField(req, k) != ""))
      && (forall k :: k in pf.fields ==> pf.fields[k] == BodyField(req, k))
      && (forall k :: k in SocialKeys ==> (k in pf.social <==> BodyField(req, k) != ""))
      && (forall k :: k in pf.social ==> pf.social[k] == BodyField(req, k))
      && (pf.skills.Some? <==> req.skills != "")
  {
  }

  /** The step-by-step build of `profileFields` in the route. */
  method BuildProfileFields(caller: Id, req: ProfileRequest) returns (pf: ProfileFields)
    ensures pf == ProfileFieldsOf(caller, req)
  {
    var fields: map<string, string> := map[];
    ghost var seen: set<string> := {};
    fields := SetIfTruthy(fields, req, seen, "company", req.company);
    seen := seen + {"company"};
    fields := SetIfTruthy(fields, req, seen, "website", req.website);
    seen := seen + {"website"};
    fields := SetIfTruthy(fields, req, seen, "location", req.location);
    seen := seen + {"location"};
    fields := SetIfTruthy(fields, req, seen, "bio", req.bio);
    seen := seen + {"bio"};
    fields := SetIfTruthy(fields, req, seen, "status", req.status);
    seen := seen + {"status"};
    fields := SetIfTruthy(fields, req, seen, "githubusername", req.githubusername);
    seen := seen + {"githubusername"};
    assert seen == ScalarKeys;
    var skills: Option<seq<string>> := None;
    if req.skills != "" {
      skills := Some(Skills.ParseSkills(req.skills));
    }
    var social := BuildSocial(req);
    pf := ProfileFields(caller, fields, skills, social);
  }

  /** The `social` sub-object, built link by link. */
  method BuildSocial(req: ProfileRequest) returns (social: map<string, string>)
    ensures social == Supplied(req, SocialKeys)
  {
    social := map[];
    ghost var seen: set<string> := {};
    social := SetIfTruthy(social, req, seen, "youtube", req.youtube);
    seen := seen + {"youtube"};
    social := SetIfTruthy(social, req, seen, "twitter", req.twitter);
    seen := seen + {"twitter"};
    social := SetIfTruthy(social, req, seen, "facebook", req.facebook);
    seen := seen + {"facebook"};
    social := SetIfTruthy(social, req, seen, "linkedin", req.linkedin);
    seen := seen + {"linkedin"};
    social := SetIfTruthy(social, req, seen, "instagram", req.instagram);
    seen := seen + {"instagram"};
    assert seen == SocialKeys;
  }

  /** One `if (value) fields[key] = value` step: having looked at `keys`,
      looking at `key` too adds it exactly when its value is truthy. */
  method SetIfTruthy(fields: map<string, string>, ghost req: ProfileRequest, ghost keys: set<string>,
                     key: string, value: string)
    returns (fields': map<string, string>)
    requires fields == Supplied(req, keys) && value == BodyField(req, key)
    ensures fields' == Supplied(req, keys + {key})
  {
    fields' := fields;
    if value != "" {
      fields' := fields[key := value];
    }
  }

  /** The validators of the upsert route, in order. */
  function UpsertErrors(req: ProfileRequest): (errs: seq<string>)
    ensures errs == [] <==> req.status != "" && req.skills != ""
    ensures StatusRequired in errs <==> req.status == ""
    ensures SkillsRequired in errs <==> req.skills == ""
  {
    Required(req.status, StatusRequired) + Required(req.skills, SkillsRequired)
  }

  /** A request that passes validation always sets `status` and a skills
      list with one entry per comma-separated piece. */
  lemma ValidRequestSetsStatusAndSkills(caller: Id, req: ProfileRequest)
    requires UpsertErrors(req) == []
    ensures var pf := ProfileFieldsOf(caller, req);
      && "status" in pf.fields && pf.fields["status"] == req.status
      && pf.skills.Some? && |pf.skills.value| == Skills.Count(req.skills, ',') + 1
  {
    assert "status" in ScalarKeys;
  }

  /** `$set: profileFields` on an existing profile: every key of the field
      map overwrites, every other scalar field is kept, skills are replaced
      when supplied, and the `social` sub-object is replaced as a whole. */
  function Merge(p: Profile, pf: ProfileFields): (q: Profile)
    ensures q.user == pf.user
    ensures q.fields.Keys == p.fields.Keys + pf.fields.Keys
    ensures forall k :: k in pf.fields ==> q.fields[k] == pf.fields[k]
    ensures forall k :: k in p.fields && k !in pf.fields ==> q.fields[k] == p.fields[k]
    ensures q.skills == if pf.skills.Some? then pf.skills.value else p.skills
    ensures q.social == pf.social && q.experience == p.experience
  {
    p.(user := pf.user, fields := p.fields + pf.fields,
       skills := if pf.skills.Some? then pf.skills.value else p.skills,
       social := pf.social)
  }

  /** `new Profile(profileFields)`: no experience yet. */
  function NewProfile(pf: ProfileFields): (p: Profile)
    ensures p.user == pf.user && p.fields == pf.fields && p.social == pf.social && p.experience == []
    ensures p.skills == (if pf.skills.Some? then pf.skills.value else [])
  {
    Profile(pf.user, pf.fields, if pf.skills.Some? then pf.skills.value else [], pf.social, [])
  }

  /** A profile as the read routes answer it: with its owner's name and
      avatar joined in, or no owner when the user record is gone. */
  datatype ProfileView = ProfileView(profile: Profile, owner: Option<(string, string)>)

  /** `.populate('user', ['name', 'avatar'])` */
  function Populate(users: map<Id, User>, p: Profile): (v: ProfileView)
    ensures v.profile == p
    ensures v.owner.Some? <==> p.user in users
    ensures v.owner.Some? ==> v.owner.value == (users[p.user].name, users[p.user].avatar)
  {
    ProfileView(p, if p.user in users then Some((users[p.user].name, users[p.user].avatar)) else None)
  }

  /** GET /api/profile/me */
  method GetMyProfile(db: Database, caller: Id) returns (r: Outcome<ProfileView>)
    ensures caller in db.profiles ==> r == Ok(Populate(db.users, db.profiles[caller]))
    ensures caller !in db.profiles ==> r == BadRequest(NoProfileForUser) && r.Status() == 400
  {
    if caller !in db.profiles {
      return BadRequest(NoProfileForUser);
    }
    r := Ok(Populate(db.users, db.profiles[caller]));
  }

  /** GET /api/profile/user/:user_id: a malformed id and a missing profile
      get the same 400 answer. */
  method GetProfileByUser(db: Database, userId: Id) returns (r: Outcome<ProfileView>)
    ensures userId in db.profiles ==> r == Ok(Populate(db.users, db.profiles[userId]))
    ensures userId !in db.profiles ==> r == BadRequest(ProfileNotFound) && r.Status() == 400
  {
    if userId !in db.profiles {
      return BadRequest(ProfileNotFound);
    }
    r := Ok(Populate(db.users, db.profiles[userId]));
  }

  /** POST /api/profile: validate, build the field map, then update the
      caller's profile if there is one and create it otherwise. */
  method UpsertProfile(db: Database, caller: Id, req: ProfileRequest) returns (r: Outcome<Profile>)
    requires db.Valid()
    modifies db`profiles
    ensures db.Valid()
    ensures UpsertErrors(req) != [] ==> r == ValidationError(UpsertErrors(req)) && db.profiles == old(db.profiles)
    ensures UpsertErrors(req) == [] ==>
      var pf := ProfileFieldsOf(caller, req);
      var p := if caller in old(db.profiles) then Merge(old(db.profiles)[caller], pf) else NewProfile(pf);
      r == Ok(p) && db.profiles == old(db.profiles)[caller := p]
    ensures UpsertErrors(req) == [] ==>
      db.profiles.Keys == old(db.profiles).Keys + {caller} && db.profiles[caller].user == caller
  {
    var errs := UpsertErrors(req);
    if errs != [] {
      return ValidationError(errs);
    }
    var pf := BuildProfileFields(caller, req);
    var p: Profile;
    if caller in db.profiles {
      p := Merge(db.profiles[caller], pf);
    } else {
      p := NewProfile(pf);
    }
    db.profiles := db.profiles[caller := p];
    r := Ok(p);
  }

  /** DELETE /api/profile: remove the caller's profile and user record;
      the caller's posts stay. Removing what is not there is no error. */
  method DeleteProfile(db: Database, caller: Id) returns (r: Outcome<string>)
    requires db.Valid()
    modifies db`profiles, db`users
    ensures db.Valid()
    ensures r == Ok(UserDeleted)
    ensures db.profiles == old(db.profiles) - {caller} && db.users == old(db.users) - {caller}
    ensures db.posts == old(db.posts)
  {
    db.profiles := db.profiles - {caller};
    db.users := db.users - {caller};
    r := Ok(UserDeleted);
  }

  /* ---------------------------------------------------------------
     Experience
     --------------------------------------------------------------- */

  /** The body of PUT /api/profile/experience; "" stands for absent. */
  datatype ExperienceRequest = ExperienceRequest(
    title: string, company: string, location: string, from: string, to: string,
    current: bool, description: string)

  /** The validators of the add-experience route, in order. */
  function ExperienceErrors(req: ExperienceRequest): (errs: seq<string>)
    ensures errs == [] <==> req.title != "" && req.from != "" && req.company != ""
    ensures TitleRequired in errs <==> req.title == ""
    ensures FromRequired in errs <==> req.from == ""
    ensures CompanyRequired in errs <==> req.company == ""
  {
    Required(req.title, TitleRequired) + Required(req.from, FromRequired) + Required(req.company, CompanyRequired)
  }

  function NewExperience(id: Id, req: ExperienceRequest): Experience {
    Experience(id, req.title, req.company, req.location, req.from, req.to, req.current, req.description)
  }

  /** `experience.map(exp => exp.id)` */
  function ExperienceIds(exps: seq<Experience>): (r: seq<Id>)
    ensures |r| == |exps| && forall i :: 0 <= i < |exps| ==> r[i] == exps[i].id
  {
    seq(|exps|, i requires 0 <= i < |exps| => exps[i].id)
  }

  /** What the delete-experience route leaves, as written:
      `splice(experience.map(id).indexOf(id), 1)`. */
  function RemoveExperience(exps: seq<Experience>, id: Id): seq<Experience> {
    SpliceOne(exps, IndexOf(ExperienceIds(exps), id))
  }

  /** When the id is present, exactly the first entry with it goes and the
      others keep their order. */
  lemma RemoveExperiencePresent(exps: seq<Experience>, id: Id)
    requires id in ExperienceIds(exps)
    ensures var k := IndexOf(ExperienceIds(exps), id);
      && 0 <= k < |exps| && exps[k].id == id
      && (forall j :: 0 <= j < k ==> exps[j].id != id)
      && RemoveExperience(exps, id) == exps[..k] + exps[k + 1..]
      && |RemoveExperience(exps, id)| == |exps| - 1
  {
  }

  /** When the id is absent, `indexOf` gives -1 and `splice(-1, 1)` drops
      the LAST entry of a non-empty list; an empty list stays empty. */
  lemma RemoveExperienceAbsentDropsLast(exps: seq<Experience>, id: Id)
    requires id !in ExperienceIds(exps)
    ensures exps != [] ==> RemoveExperience(exps, id) == exps[..|exps| - 1]
    ensures exps == [] ==> RemoveExperience(exps, id) == []
  {
    SpliceAtMissingIndexDropsLast(ExperienceIds(exps), id);
  }

  /** An input that shows it: two entries, and a request for an id neither
      has, removes the older entry. */
  lemma RemoveMissingExperienceExample()
    ensures var e1 := Experience("e1", "t1", "c1", "", "2020", "", false, "");
      var e2 := Experience("e2", "t2", "c2", "", "2018", "", false, "");
      RemoveExperience([e1, e2], "e3") == [e1]
  {
    var e1 := Experience("e1", "t1", "c1", "", "2020", "", false, "");
    var e2 := Experience("e2", "t2", "c2", "", "2018", "", false, "");
    assert ExperienceIds([e1, e2]) == ["e1", "e2"];
    assert "e3" !in ["e1", "e2"];
    RemoveExperienceAbsentDropsLast([e1, e2], "e3");
  }

  /** The evidently intended removal: the first entry with the id, or
      nothing at all (None) when no entry has it. */
  function RemoveExperienceChecked(exps: seq<Experience>, id: Id): Option<seq<Experience>> {
    var k := IndexOf(ExperienceIds(exps), id);
    if k < 0 then None else Some(exps[..k] + exps[k + 1..])
  }

  /** The corrected removal reports a missing id instead of deleting, and
      otherwise removes exactly the first entry with the id. */
  lemma RemoveExperienceCheckedExact(exps: seq<Experience>, id: Id)
    ensures RemoveExperienceChecked(exps, id).None? <==> forall i :: 0 <= i < |exps| ==> exps[i].id != id
    ensures RemoveExperienceChecked(exps, id).Some? ==>
      var k := IndexOf(ExperienceIds(exps), id);
      && 0 <= k < |exps| && exps[k].id == id
      && (forall j :: 0 <= j < k ==> exps[j].id != id)
      && RemoveExperienceChecked(exps, id).value == exps[..k] + exps[k + 1..]
  {
    if forall i :: 0 <= i < |exps| ==> exps[i].id != id {
      assert id !in ExperienceIds(exps);
    } else {
      var i :| 0 <= i < |exps| && exps[i].id == id;
      assert ExperienceIds(exps)[i] == id;
    }
  }

  /** Removing the entry just added gives back the list as it was. */
  lemma RemoveUndoesAddExperience(e: Experience, exps: seq<Experience>)
    ensures RemoveExperience([e] + exps, e.id) == exps
    ensures RemoveExperienceChecked([e] + exps, e.id) == Some(exps)
  {
    assert ExperienceIds([e] + exps)[0] == e.id;
  }

  /** PUT /api/profile/experience: validate, then prepend an entry with the
      generated id `newId` to the caller's profile. */
  method AddExperience(db: Database, caller: Id, req: ExperienceRequest, newId: Id) returns (r: Outcome<Profile>)
    requires db.Valid()
    modifies db`profiles
    ensures db.Valid()
    ensures ExperienceErrors(req) != [] ==>
      r == ValidationError(ExperienceErrors(req)) && db.profiles == old(db.profiles)
    ensures ExperienceErrors(req) == [] && caller !in old(db.profiles) ==>
      r == ServerError && db.profiles == old(db.profiles)
    ensures ExperienceErrors(req) == [] && caller in old(db.profiles) ==>
      var p := old(db.profiles)[caller];
      var q := p.(experience := [NewExperience(newId, req)] + p.experience);
      r == Ok(q) && db.profiles == old(db.profiles)[caller := q]
  {
    var errs := ExperienceErrors(req);
    if errs != [] {
      return ValidationError(errs);
    }
    if caller !in db.profiles {
      // `profile.experience` on a null profile throws
      return ServerError;
    }
    var p := db.profiles[caller];
    p := p.(experience := [NewExperience(newId, req)] + p.experience);
    db.profiles := db.profiles[caller := p];
    r := Ok(p);
  }

  /** DELETE /api/profile/experience/:exp_id, as written. */
  method DeleteExperience(db: Database, caller: Id, expId: Id) returns (r: Outcome<Profile>)
    requires db.Valid()
    modifies db`profiles
    ensures db.Valid()
    ensures caller !in old(db.profiles) ==> r == ServerError && db.profiles == old(db.profiles)
    ensures caller in old(db.profiles) ==>
      var p := old(db.profiles)[caller];
      var q := p.(experience := RemoveExperience(p.experience, expId));
      r == Ok(q) && db.profiles == old(db.profiles)[caller := q]
  {
    if caller !in db.profiles {
      return ServerError;
    }
    var p := db.profiles[caller];
    p := p.(experience := RemoveExperience(p.experience, expId));
    db.profiles := db.profiles[caller := p];
    r := Ok(p);
  }

  /** The delete-experience route as evidently intended: an id no entry
      has is answered 404 and the profile is left alone. */
  method DeleteExperienceChecked(db: Database, caller: Id, expId: Id) returns (r: Outcome<Profile>)
    requires db.Valid()
    modifies db`profiles
    ensures db.Valid()
    ensures caller !in old(db.profiles) ==> r == ServerError && db.profiles == old(db.profiles)
    ensures caller in old(db.profiles) && RemoveExperienceChecked(old(db.profiles)[caller].experience, expId).None? ==>
      r == NotFound(ExperienceNotFound) && db.profiles == old(db.profiles)
    ensures caller in old(db.profiles) && RemoveExperienceChecked(old(db.profiles)[caller].experience, expId).Some? ==>
      var p := old(db.profiles)[caller];
      var q := p.(experience := RemoveExperienceChecked(p.experience, expId).value);
      r == Ok(q) && db.profiles == old(db.profiles)[caller := q]
  {
    if caller !in db.profiles {
      return ServerError;
    }
    var p := db.profiles[caller];
    var remaining := RemoveExperienceChecked(p.experience, expId);
    if remaining.None? {
      return NotFound(ExperienceNotFound);
    }
    p := p.(experience := remaining.value);
    db.profiles := db.profiles[caller := p];
    r := Ok(p);
  }
}
