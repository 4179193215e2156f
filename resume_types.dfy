/**
 * The resume record and the closed set of actions that update it
 * (types.ts). Every string is a `seq<char>`; `Partial<PersonalInfo>` becomes
 * a record of seven optional strings.
 */
module ResumeTypes {
  import opened Wrappers

  datatype PersonalInfo = PersonalInfo(
    name: string,
    title: string,
    phone: string,
    email: string,
    linkedin: string,
    github: string,
    location: string)

  datatype WorkExperience = WorkExperience(
    id: string,
    company: string,
    role: string,
    startDate: string,
    endDate: string,
    description: string)

  datatype Education = Education(
    id: string,
    institution: string,
    degree: string,
    startDate: string,
    endDate: string)

  datatype Skill = Skill(id: string, name: string)

  datatype Project = Project(id: string, name: string, description: string, link: string)

  datatype ResumeData = ResumeData(
    personalInfo: PersonalInfo,
    summary: string,
    experience: seq<WorkExperience>,
    education: seq<Education>,
    skills: seq<Skill>,
    projects: seq<Project>)

  /** `Partial<PersonalInfo>`: a key the object does not carry is `None`. */
  datatype PersonalInfoPatch = PersonalInfoPatch(
    name: Option<string>,
    title: Option<string>,
    phone: Option<string>,
    email: Option<string>,
    linkedin: Option<string>,
    github: Option<string>,
    location: Option<string>)

  /** `ResumeAction`: exactly fourteen variants; a DELETE carries only the id. */
  datatype ResumeAction =
    | UpdatePersonalInfo(patch: PersonalInfoPatch)
    | UpdateSummary(summary: string)
    | AddExperience(experience: WorkExperience)
    | UpdateExperience(experience: WorkExperience)
    | DeleteExperience(id: string)
    | AddEducation(education: Education)
    | UpdateEducation(education: Education)
    | DeleteEducation(id: string)
    | AddSkill(skill: Skill)
    | UpdateSkill(skill: Skill)
    | DeleteSkill(id: string)
    | AddProject(project: Project)
    | UpdateProject(project: Project)
    | DeleteProject(id: string)

  // The `id` accessors, passed to the generic list operations.
  function ExperienceId(e: WorkExperience): string { e.id }
  function EducationId(e: Education): string { e.id }
  function SkillId(s: Skill): string { s.id }
  function ProjectId(p: Project): string { p.id }

  /** The seven keys of `PersonalInfo`, in declaration order. */
  datatype PersonalField = Name | Title | Phone | Email | Linkedin | Github | Location

  function PersonalGet(p: PersonalInfo, f: PersonalField): string {
    match f
    case Name => p.name
    case Title => p.title
    case Phone => p.phone
    case Email => p.email
    case Linkedin => p.linkedin
    case Github => p.github
    case Location => p.location
  }

  function PatchGet(patch: PersonalInfoPatch, f: PersonalField): Option<string> {
    match f
    case Name => patch.name
    case Title => patch.title
    case Phone => patch.phone
    case Email => patch.email
    case Linkedin => patch.linkedin
    case Github => patch.github
    case Location => patch.location
  }
}
