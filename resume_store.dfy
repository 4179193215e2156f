/**
 * The resume store (contexts/ResumeContext.tsx): `resumeReducer` as a total
 * function from a snapshot and an action to the next snapshot, and the shape
 * of the seed record the store starts from.
 */
module ResumeStore {
  import opened Wrappers
  import opened ResumeTypes
  import opened EntryLists

  /** The six sections of a resume record. */
  datatype Section =
    | PersonalInfoSection | SummarySection
    | ExperienceSection | EducationSection | SkillsSection | ProjectsSection

  /** The one section an action writes. */
  function SectionOf(a: ResumeAction): Section {
    match a
    case UpdatePersonalInfo(_) => PersonalInfoSection
    case UpdateSummary(_) => SummarySection
    case AddExperience(_) => ExperienceSection
    case UpdateExperience(_) => ExperienceSection
    case DeleteExperience(_) => ExperienceSection
    case AddEducation(_) => EducationSection
    case UpdateEducation(_) => EducationSection
    case DeleteEducation(_) => EducationSection
    case AddSkill(_) => SkillsSection
    case UpdateSkill(_) => SkillsSection
    case DeleteSkill(_) => SkillsSection
    case AddProject(_) => ProjectsSection
    case UpdateProject(_) => ProjectsSection
    case DeleteProject(_) => ProjectsSection
  }

  /** `s` and `t` agree on every section other than `sec`. */
  ghost predicate SameOutside(s: ResumeData, t: ResumeData, sec: Section) {
    && (sec != PersonalInfoSection ==> t.personalInfo == s.personalInfo)
    && (sec != SummarySection ==> t.summary == s.summary)
    && (sec != ExperienceSection ==> t.experience == s.experience)
    && (sec != EducationSection ==> t.education == s.education)
    && (sec != SkillsSection ==> t.skills == s.skills)
    && (sec != ProjectsSection ==> t.projects == s.projects)
  }

  /** `{ ...p, ...patch }`: a key the patch carries overwrites, every other key keeps its value. */
  function Merge(p: PersonalInfo, patch: PersonalInfoPatch): (r: PersonalInfo)
    ensures forall f :: PersonalGet(r, f) == PatchOr(PatchGet(patch, f), PersonalGet(p, f))
  {
    PersonalInfo(
      PatchOr(patch.name, p.name),
      PatchOr(patch.title, p.title),
      PatchOr(patch.phone, p.phone),
      PatchOr(patch.email, p.email),
      PatchOr(patch.linkedin, p.linkedin),
      PatchOr(patch.github, p.github),
      PatchOr(patch.location, p.location))
  }

  function PatchOr(o: Option<string>, otherwise: string): string {
    if o.Some? then o.value else otherwise
  }

  /** `resumeReducer`: every action writes its own section and leaves the other five as they were. */
  function Reduce(state: ResumeData, action: ResumeAction): (r: ResumeData)
    ensures !action.UpdatePersonalInfo? ==> r.personalInfo == state.personalInfo
    ensures !action.UpdateSummary? ==> r.summary == state.summary
    ensures !(action.AddExperience? || action.UpdateExperience? || action.DeleteExperience?) ==> r.experience == state.experience
    ensures !(action.AddEducation? || action.UpdateEducation? || action.DeleteEducation?) ==> r.education == state.education
    ensures !(action.AddSkill? || action.UpdateSkill? || action.DeleteSkill?) ==> r.skills == state.skills
    ensures !(action.AddProject? || action.UpdateProject? || action.DeleteProject?) ==> r.projects == state.projects
  {
    match action
    case UpdatePersonalInfo(patch) => state.(personalInfo := Merge(state.personalInfo, patch))
    case UpdateSummary(text) => state.(summary := text)
    case AddExperience(e) => state.(experience := state.experience + [e])
    case UpdateExperience(e) => state.(experience := ReplaceById(state.experience, e, ExperienceId))
    case DeleteExperience(id) => state.(experience := RemoveById(state.experience, id, ExperienceId))
    case AddEducation(e) => state.(education := state.education + [e])
    case UpdateEducation(e) => state.(education := ReplaceById(state.education, e, EducationId))
    case DeleteEducation(id) => state.(education := RemoveById(state.education, id, EducationId))
    case AddSkill(s) => state.(skills := state.skills + [s])
    case UpdateSkill(s) => state.(skills := ReplaceById(state.skills, s, SkillId))
    case DeleteSkill(id) => state.(skills := RemoveById(state.skills, id, SkillId))
    case AddProject(p) => state.(projects := state.projects + [p])
    case UpdateProject(p) => state.(projects := ReplaceById(state.projects, p, ProjectId))
    case DeleteProject(id) => state.(projects := RemoveById(state.projects, id, ProjectId))
  }

  // ---------------------------------------------------------------------------
  // Vocabulary shared by the twelve list actions

  predicate IsAdd(a: ResumeAction) {
    a.AddExperience? || a.AddEducation? || a.AddSkill? || a.AddProject?
  }

  predicate IsUpdate(a: ResumeAction) {
    a.UpdateExperience? || a.UpdateEducation? || a.UpdateSkill? || a.UpdateProject?
  }

  predicate IsDelete(a: ResumeAction) {
    a.DeleteExperience? || a.DeleteEducation? || a.DeleteSkill? || a.DeleteProject?
  }

  /** The id a list action carries: the payload's id for ADD and UPDATE, the payload itself for DELETE. */
  function TargetId(a: ResumeAction): string
    requires IsAdd(a) || IsUpdate(a) || IsDelete(a)
  {
    match a
    case AddExperience(e) => e.id
    case UpdateExperience(e) => e.id
    case DeleteExperience(id) => id
    case AddEducation(e) => e.id
    case UpdateEducation(e) => e.id
    case DeleteEducation(id) => id
    case AddSkill(s) => s.id
    case UpdateSkill(s) => s.id
    case DeleteSkill(id) => id
    case AddProject(p) => p.id
    case UpdateProject(p) => p.id
    case DeleteProject(id) => id
  }

  /** The DELETE of the same list that carries `a`'s id. */
  function DeleteFor(a: ResumeAction): (d: ResumeAction)
    requires IsAdd(a) || IsUpdate(a) || IsDelete(a)
    ensures IsDelete(d) && SectionOf(d) == SectionOf(a) && TargetId(d) == TargetId(a)
  {
    match SectionOf(a)
    case ExperienceSection => DeleteExperience(TargetId(a))
    case EducationSection => DeleteEducation(TargetId(a))
    case SkillsSection => DeleteSkill(TargetId(a))
    case ProjectsSection => DeleteProject(TargetId(a))
  }

  /** Some entry of the list `sec` carries `id`. */
  ghost predicate ListHasId(state: ResumeData, sec: Section, id: string) {
    match sec
    case ExperienceSection => HasId(state.experience, id, ExperienceId)
    case EducationSection => HasId(state.education, id, EducationId)
    case SkillsSection => HasId(state.skills, id, SkillId)
    case ProjectsSection => HasId(state.projects, id, ProjectId)
    case _ => false
  }

  /** The number of entries in the list `sec` (zero for the two non-list sections). */
  function ListLength(state: ResumeData, sec: Section): nat {
    match sec
    case ExperienceSection => |state.experience|
    case EducationSection => |state.education|
    case SkillsSection => |state.skills|
    case ProjectsSection => |state.projects|
    case _ => 0
  }

  /** Ids are unique within each of the four lists. */
  ghost predicate WellFormed(state: ResumeData) {
    && UniqueIds(state.experience, ExperienceId)
    && UniqueIds(state.education, EducationId)
    && UniqueIds(state.skills, SkillId)
    && UniqueIds(state.projects, ProjectId)
  }

  /** An ADD whose id is not yet in its list; every other action qualifies. */
  ghost predicate FreshFor(state: ResumeData, a: ResumeAction) {
    IsAdd(a) ==> !ListHasId(state, SectionOf(a), TargetId(a))
  }

  // ---------------------------------------------------------------------------
  // ADD

  /** ADD appends the payload at the end of its list: one longer, earlier entries untouched, no id check. */
  lemma ReduceAddAppends(state: ResumeData, a: ResumeAction)
    requires IsAdd(a)
    ensures ListLength(Reduce(state, a), SectionOf(a)) == ListLength(state, SectionOf(a)) + 1
    ensures a.AddExperience? ==> var l := Reduce(state, a).experience;
      l[..|state.experience|] == state.experience && l[|state.experience|] == a.experience
    ensures a.AddEducation? ==> var l := Reduce(state, a).education;
      l[..|state.education|] == state.education && l[|state.education|] == a.education
    ensures a.AddSkill? ==> var l := Reduce(state, a).skills;
      l[..|state.skills|] == state.skills && l[|state.skills|] == a.skill
    ensures a.AddProject? ==> var l := Reduce(state, a).projects;
      l[..|state.projects|] == state.projects && l[|state.projects|] == a.project
  {
  }

  /** An ADD with a fresh id followed by the DELETE of that id restores the snapshot. */
  lemma ReduceAddThenDelete(state: ResumeData, a: ResumeAction)
    requires IsAdd(a) && FreshFor(state, a)
    ensures Reduce(Reduce(state, a), DeleteFor(a)) == state
  {
    match a
    case AddExperience(e) => RemoveAfterFreshAppend(state.experience, e, ExperienceId);
    case AddEducation(e) => RemoveAfterFreshAppend(state.education, e, EducationId);
    case AddSkill(s) => RemoveAfterFreshAppend(state.skills, s, SkillId);
    case AddProject(p) => RemoveAfterFreshAppend(state.projects, p, ProjectId);
  }

  // ---------------------------------------------------------------------------
  // UPDATE

  /** UPDATE keeps length and order: an entry carrying the payload's id becomes the payload, others stay. */
  lemma ReduceUpdateReplaces(state: ResumeData, a: ResumeAction)
    requires IsUpdate(a)
    ensures ListLength(Reduce(state, a), SectionOf(a)) == ListLength(state, SectionOf(a))
    ensures a.UpdateExperience? ==> var l, e := Reduce(state, a).experience, a.experience;
      forall i :: 0 <= i < |l| ==> l[i] == if state.experience[i].id == e.id then e else state.experience[i]
    ensures a.UpdateEducation? ==> var l, e := Reduce(state, a).education, a.education;
      forall i :: 0 <= i < |l| ==> l[i] == if state.education[i].id == e.id then e else state.education[i]
    ensures a.UpdateSkill? ==> var l, s := Reduce(state, a).skills, a.skill;
      forall i :: 0 <= i < |l| ==> l[i] == if state.skills[i].id == s.id then s else state.skills[i]
    ensures a.UpdateProject? ==> var l, p := Reduce(state, a).projects, a.project;
      forall i :: 0 <= i < |l| ==> l[i] == if state.projects[i].id == p.id then p else state.projects[i]
  {
  }

  /** UPDATE of an id its list does not hold changes nothing at all. */
  lemma ReduceUpdateMissingIsNoOp(state: ResumeData, a: ResumeAction)
    requires IsUpdate(a) && !ListHasId(state, SectionOf(a), TargetId(a))
    ensures Reduce(state, a) == state
  {
    match a
    case UpdateExperience(e) => ReplaceMissingIsIdentity(state.experience, e, ExperienceId);
    case UpdateEducation(e) => ReplaceMissingIsIdentity(state.education, e, EducationId);
    case UpdateSkill(s) => ReplaceMissingIsIdentity(state.skills, s, SkillId);
    case UpdateProject(p) => ReplaceMissingIsIdentity(state.projects, p, ProjectId);
  }

  /** UPDATE never changes which ids a list holds. */
  lemma ReduceUpdateKeepsIds(state: ResumeData, a: ResumeAction, id: string)
    requires IsUpdate(a)
    ensures ListHasId(Reduce(state, a), SectionOf(a), id) <==> ListHasId(state, SectionOf(a), id)
  {
    var t := Reduce(state, a);
    match a
    case UpdateExperience(e) =>
      assert t.experience == ReplaceById(state.experience, e, ExperienceId);
      ReplaceKeepsId(state.experience, e, ExperienceId, id);
    case UpdateEducation(e) =>
      assert t.education == ReplaceById(state.education, e, EducationId);
      ReplaceKeepsId(state.education, e, EducationId, id);
    case UpdateSkill(s) =>
      assert t.skills == ReplaceById(state.skills, s, SkillId);
      ReplaceKeepsId(state.skills, s, SkillId, id);
    case UpdateProject(p) =>
      assert t.projects == ReplaceById(state.projects, p, ProjectId);
      ReplaceKeepsId(state.projects, p, ProjectId, id);
  }

  // ---------------------------------------------------------------------------
  // DELETE

  /** After DELETE no entry of its list carries the id. */
  lemma ReduceDeleteRemovesId(state: ResumeData, a: ResumeAction)
    requires IsDelete(a)
    ensures !ListHasId(Reduce(state, a), SectionOf(a), TargetId(a))
    ensures ListLength(Reduce(state, a), SectionOf(a)) <= ListLength(state, SectionOf(a))
  {
  }

  /** DELETE of an id its list does not hold changes nothing at all. */
  lemma ReduceDeleteAbsentIsNoOp(state: ResumeData, a: ResumeAction)
    requires IsDelete(a) && !ListHasId(state, SectionOf(a), TargetId(a))
    ensures Reduce(state, a) == state
  {
    match a
    case DeleteExperience(id) => RemoveAbsentIsIdentity(state.experience, id, ExperienceId);
    case DeleteEducation(id) => RemoveAbsentIsIdentity(state.education, id, EducationId);
    case DeleteSkill(id) => RemoveAbsentIsIdentity(state.skills, id, SkillId);
    case DeleteProject(id) => RemoveAbsentIsIdentity(state.projects, id, ProjectId);
  }

  /** Applying a DELETE twice is the same as applying it once. */
  lemma ReduceDeleteIdempotent(state: ResumeData, a: ResumeAction)
    requires IsDelete(a)
    ensures Reduce(Reduce(state, a), a) == Reduce(state, a)
  {
    match a
    case DeleteExperience(id) => RemoveIdempotent(state.experience, id, ExperienceId);
    case DeleteEducation(id) => RemoveIdempotent(state.education, id, EducationId);
    case DeleteSkill(id) => RemoveIdempotent(state.skills, id, SkillId);
    case DeleteProject(id) => RemoveIdempotent(state.projects, id, ProjectId);
  }

  /** With unique ids, DELETE of a present id drops exactly that entry and keeps the rest in order. */
  lemma ReduceDeleteUniquePresent(state: ResumeData, a: ResumeAction, i: nat)
    requires WellFormed(state) && IsDelete(a)
    ensures a.DeleteExperience? && i < |state.experience| && state.experience[i].id == a.id ==>
      Reduce(state, a).experience == state.experience[..i] + state.experience[i + 1..]
    ensures a.DeleteEducation? && i < |state.education| && state.education[i].id == a.id ==>
      Reduce(state, a).education == state.education[..i] + state.education[i + 1..]
    ensures a.DeleteSkill? && i < |state.skills| && state.skills[i].id == a.id ==>
      Reduce(state, a).skills == state.skills[..i] + state.skills[i + 1..]
    ensures a.DeleteProject? && i < |state.projects| && state.projects[i].id == a.id ==>
      Reduce(state, a).projects == state.projects[..i] + state.projects[i + 1..]
  {
    match a
    case DeleteExperience(id) =>
      if i < |state.experience| && state.experience[i].id == id {
        RemoveUniquePresent(state.experience, id, ExperienceId, i);
      }
    case DeleteEducation(id) =>
      if i < |state.education| && state.education[i].id == id {
        RemoveUniquePresent(state.education, id, EducationId, i);
      }
    case DeleteSkill(id) =>
      if i < |state.skills| && state.skills[i].id == id {
        RemoveUniquePresent(state.skills, id, SkillId, i);
      }
    case DeleteProject(id) =>
      if i < |state.projects| && state.projects[i].id == id {
        RemoveUniquePresent(state.projects, id, ProjectId, i);
      }
  }

  /** With unique ids, DELETE of a present id shortens its list by exactly one. */
  lemma ReduceDeleteUniqueLength(state: ResumeData, a: ResumeAction)
    requires WellFormed(state) && IsDelete(a) && ListHasId(state, SectionOf(a), TargetId(a))
    ensures ListLength(Reduce(state, a), SectionOf(a)) == ListLength(state, SectionOf(a)) - 1
  {
    match a
    case DeleteExperience(id) =>
      var i :| 0 <= i < |state.experience| && ExperienceId(state.experience[i]) == id;
      RemoveUniquePresentLength(state.experience, id, ExperienceId, i);
    case DeleteEducation(id) =>
      var i :| 0 <= i < |state.education| && EducationId(state.education[i]) == id;
      RemoveUniquePresentLength(state.education, id, EducationId, i);
    case DeleteSkill(id) =>
      var i :| 0 <= i < |state.skills| && SkillId(state.skills[i]) == id;
      RemoveUniquePresentLength(state.skills, id, SkillId, i);
    case DeleteProject(id) =>
      var i :| 0 <= i < |state.projects| && ProjectId(state.projects[i]) == id;
      RemoveUniquePresentLength(state.projects, id, ProjectId, i);
  }

  // ---------------------------------------------------------------------------
  // The id invariant

  /** Unique ids survive every action, provided an ADD brings a fresh id. */
  lemma ReducePreservesWellFormed(state: ResumeData, a: ResumeAction)
    requires WellFormed(state) && FreshFor(state, a)
    ensures WellFormed(Reduce(state, a))
  {
    match a
    case UpdatePersonalInfo(_) =>
    case UpdateSummary(_) =>
    case AddExperience(e) => AppendFreshKeepsUnique(state.experience, e, ExperienceId);
    case UpdateExperience(e) => ReplaceKeepsIds(state.experience, e, ExperienceId);
    case DeleteExperience(id) => RemoveKeepsUnique(state.experience, id, ExperienceId);
    case AddEducation(e) => AppendFreshKeepsUnique(state.education, e, EducationId);
    case UpdateEducation(e) => ReplaceKeepsIds(state.education, e, EducationId);
    case DeleteEducation(id) => RemoveKeepsUnique(state.education, id, EducationId);
    case AddSkill(s) => AppendFreshKeepsUnique(state.skills, s, SkillId);
    case UpdateSkill(s) => ReplaceKeepsIds(state.skills, s, SkillId);
    case DeleteSkill(id) => RemoveKeepsUnique(state.skills, id, SkillId);
    case AddProject(p) => AppendFreshKeepsUnique(state.projects, p, ProjectId);
    case UpdateProject(p) => ReplaceKeepsIds(state.projects, p, ProjectId);
    case DeleteProject(id) => RemoveKeepsUnique(state.projects, id, ProjectId);
  }

  // ---------------------------------------------------------------------------
  // The seed record

  /**
   * `initialResumeData`, with the nine `crypto.randomUUID()` results passed in
   * as `ids` (experience, education, six skills, project, in source order).
   */
  function InitialResumeData(ids: seq<string>): (r: ResumeData)
    requires |ids| == 9
    ensures |r.experience| == 1 && |r.education| == 1 && |r.skills| == 6 && |r.projects| == 1
    ensures r.experience[0].endDate == "Present"
    ensures r.experience[0].id == ids[0] && r.education[0].id == ids[1] && r.projects[0].id == ids[8]
    ensures forall k :: 0 <= k < 6 ==> r.skills[k].id == ids[k + 2]
  {
    ResumeData(
      PersonalInfo(
        "Jane Doe", "Senior Frontend Developer", "123-456-7890", "jane.doe@example.com",
        "linkedin.com/in/janedoe", "github.com/janedoe", "San Francisco, CA"),
      SeedSummary,
      [WorkExperience(ids[0], "Tech Solutions Inc.", "Senior Frontend Developer", "2018-06-01", "Present", SeedDescription)],
      [Education(ids[1], "University of Technology", "B.S. in Computer Science", "2010-09-01", "2014-05-01")],
      [ Skill(ids[2], "React"), Skill(ids[3], "TypeScript"), Skill(ids[4], "JavaScript (ES6+)"),
        Skill(ids[5], "Tailwind CSS"), Skill(ids[6], "Node.js"), Skill(ids[7], "Git & GitHub") ],
      [Project(ids[8], "E-commerce Platform",
        SeedProjectDescription,
        "github.com/janedoe/ecommerce")])
  }

  /** With nine distinct ids the seed record has unique ids in every list. */
  lemma InitialIsWellFormed(ids: seq<string>)
    requires |ids| == 9 && forall i, j :: 0 <= i < j < 9 ==> ids[i] != ids[j]
    ensures WellFormed(InitialResumeData(ids))
  {
    var r := InitialResumeData(ids);
    forall i, j | 0 <= i < j < |r.skills| ensures SkillId(r.skills[i]) != SkillId(r.skills[j]) {
      assert ids[i + 2] != ids[j + 2];
    }
  }

  const SeedSummary: string :=
    "Dedicated and experienced Frontend Developer with over 8 years of experience in building and "
    + "maintaining responsive and user-friendly web applications using React, TypeScript, and modern "
    + "JavaScript frameworks. Proven ability to lead projects and collaborate with cross-functional "
    + "teams to deliver high-quality software."

  const SeedProjectDescription: string :=
    "A full-stack e-commerce application built with React, Redux, and Node.js, featuring product "
    + "search, cart functionality, and Stripe integration for payments."

  /** The seed experience description: three lines, each a bullet, a space and one of the texts below. */
  const SeedDescription: string :=
    "\U{2022} " + SeedAchievement1 + "\n" + "\U{2022} " + SeedAchievement2 + "\n" + "\U{2022} " + SeedAchievement3

  const SeedAchievement1: string :=
    "Led the development of a new customer-facing dashboard, resulting in a 20% increase in user engagement."
  const SeedAchievement2: string :=
    "Mentored junior developers and conducted code reviews to ensure code quality and consistency."
  const SeedAchievement3: string :=
    "Collaborated with UI/UX designers to translate wireframes into high-fidelity prototypes."

  // ---------------------------------------------------------------------------
  // Two concrete runs of the reducer

  /** Adding one experience entry to an empty list yields exactly that entry. */
  lemma AddToEmptyExperience(state: ResumeData)
    requires state.experience == []
    ensures var e := WorkExperience("e1", "Acme", "Eng", "2020-01-01", "Present", "");
      Reduce(state, AddExperience(e)).experience == [e]
  {
  }

  /** Deleting "s1" from [s1 Go, s2 Rust] leaves [s2 Rust]. */
  lemma DeleteFirstSkill(state: ResumeData)
    requires state.skills == [Skill("s1", "Go"), Skill("s2", "Rust")]
    ensures Reduce(state, DeleteSkill("s1")).skills == [Skill("s2", "Rust")]
  {
    var xs := state.skills;
    assert "s2"[1] != "s1"[1];
    assert xs[1..] == [Skill("s2", "Rust")];
    assert xs[1..][1..] == [];
    assert RemoveById(xs[1..], "s1", SkillId) == [Skill("s2", "Rust")] + RemoveById(xs[1..][1..], "s1", SkillId);
  }
}
