/** The profile editor: the form starts from the user's profile (`user?.field ?? ""`, the skills
    shown as one comma-separated text), and `handleSave` builds the update payload, leaving out
    every empty field and parsing the skills text into a list. */
module EditProfile {
  import opened Wrappers
  import opened Strings

  /** `skills?: string[] | string`, or absent. */
  datatype Skills = SkillList(items: seq<string>) | SkillText(text: string) | NoSkills

  /** The profile the modal is opened with; a missing field is `None`. */
  datatype UserProfile = UserProfile(
    name: Option<string>, email: Option<string>, phone: Option<string>, github: Option<string>,
    website: Option<string>, location: Option<string>, bio: Option<string>, skills: Skills)

  /** The text fields of the form. */
  datatype ProfileForm = ProfileForm(
    name: string, email: string, phone: string, github: string, website: string,
    location: string, bio: string, skills: string)

  /** The payload `handleSave` sends; an undefined field is `None`. */
  datatype Payload = Payload(
    name: Option<string>, email: Option<string>, phone: Option<string>, github: Option<string>,
    website: Option<string>, location: Option<string>, bio: Option<string>,
    skills: Option<seq<string>>)

  /** `initialSkills`: a list joined with ", ", a text as given, and "" otherwise. */
  function InitialSkills(skills: Skills): (r: string)
    ensures skills.SkillText? ==> r == skills.text
    ensures skills.NoSkills? ==> r == ""
    ensures skills.SkillList? && skills.items == [] ==> r == ""
  {
    match skills
    case SkillList(items) => Join(items, ", ")
    case SkillText(text) => text
    case NoSkills => ""
  }

  /** `user?.field ?? ""`. */
  function OrEmpty(field: Option<string>): (r: string)
    ensures field.None? ==> r == ""
  {
    if field.Some? then field.value else ""
  }

  /** The form as it is filled in from the user's profile, or left empty without one. */
  function InitialForm(user: Option<UserProfile>): (r: ProfileForm)
    ensures user.None? ==> r == ProfileForm("", "", "", "", "", "", "", "")
  {
    if user.None? then ProfileForm("", "", "", "", "", "", "", "")
    else
      var u := user.value;
      ProfileForm(OrEmpty(u.name), OrEmpty(u.email), OrEmpty(u.phone), OrEmpty(u.github),
                  OrEmpty(u.website), OrEmpty(u.location), OrEmpty(u.bio), InitialSkills(u.skills))
  }

  /** `field || undefined`. */
  function OrUndefined(field: string): (r: Option<string>)
    ensures r.None? <==> field == ""
    ensures r.Some? ==> r.value == field
  {
    if field == "" then None else Some(field)
  }

  /** `skills ? skills.split(",").map(s => s.trim()).filter(Boolean) : undefined`. */
  function SavedSkills(skills: string): (r: Option<seq<string>>)
    ensures r.None? <==> skills == ""
  {
    if skills == "" then None else Some(ParseList(skills, ','))
  }

  /** The saved skills are clean: none is empty, each is trimmed and holds no comma. */
  lemma SavedSkillsClean(skills: string)
    requires skills != ""
    ensures CleanItems(SavedSkills(skills).value, ',')
  {
    ParseListClean(skills, ',');
  }

  /** `handleSave`'s payload. */
  function SavePayload(f: ProfileForm): (r: Payload)
    ensures r.name.None? <==> f.name == ""
    ensures r.email.None? <==> f.email == ""
    ensures r.phone.None? <==> f.phone == ""
    ensures r.github.None? <==> f.github == ""
    ensures r.website.None? <==> f.website == ""
    ensures r.location.None? <==> f.location == ""
    ensures r.bio.None? <==> f.bio == ""
    ensures r.skills.None? <==> f.skills == ""
  {
    Payload(OrUndefined(f.name), OrUndefined(f.email), OrUndefined(f.phone), OrUndefined(f.github),
            OrUndefined(f.website), OrUndefined(f.location), OrUndefined(f.bio), SavedSkills(f.skills))
  }

  /** A text field keeps a non-empty value when the form is opened and saved unedited. */
  predicate Kept(saved: Option<string>, field: Option<string>)
  {
    saved == if field.Some? && field.value != "" then field else None
  }

  /** A text field filled in from the profile and saved unedited keeps its non-empty value. */
  lemma FieldSurvivesSave(field: Option<string>)
    ensures Kept(OrUndefined(OrEmpty(field)), field)
  {
  }

  /** A list of clean skills shown joined and saved unedited comes back as the same list, and as
      no skills at all when it is empty. */
  lemma SkillsSurviveSave(items: seq<string>)
    requires CleanItems(items, ',')
    ensures SavedSkills(InitialSkills(SkillList(items))) == if items == [] then None else Some(items)
  {
    ParseListJoin(items, ',');
    if items != [] {
      assert items[0] != [];
      JoinNonEmpty(items, ", ");
    }
  }

  /** Opening the editor on a profile whose skills are a list of clean items and saving it
      unedited sends the profile back: each non-empty field as it was, the empty and missing ones
      left out, and the same skills (none when the list is empty). */
  lemma SaveUneditedProfile(u: UserProfile)
    requires u.skills.SkillList? && CleanItems(u.skills.items, ',')
    ensures var p := SavePayload(InitialForm(Some(u)));
      && Kept(p.name, u.name) && Kept(p.email, u.email) && Kept(p.phone, u.phone)
      && Kept(p.github, u.github) && Kept(p.website, u.website) && Kept(p.location, u.location)
      && Kept(p.bio, u.bio)
      && p.skills == if u.skills.items == [] then None else Some(u.skills.items)
  {
    FieldSurvivesSave(u.name);
    FieldSurvivesSave(u.email);
    FieldSurvivesSave(u.phone);
    FieldSurvivesSave(u.github);
    FieldSurvivesSave(u.website);
    FieldSurvivesSave(u.location);
    FieldSurvivesSave(u.bio);
    SkillsSurviveSave(u.skills.items);
  }

  /** Saving skills that were shown joined after a save gives the same skills again. */
  lemma SkillsStableAcrossSaves(skills: string)
    requires skills != ""
    ensures var first := SavedSkills(skills).value;
      first != [] ==> SavedSkills(InitialSkills(SkillList(first))) == Some(first)
  {
    var first := ParseList(skills, ',');
    ParseListStable(skills, ',');
    if first != [] {
      JoinNonEmpty(first, ", ");
    }
  }
}
