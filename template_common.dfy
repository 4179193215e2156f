/**
 * The display text that all three templates derive from the resume record
 * (components/ResumePreview.tsx, ModernTemplate.tsx, CreativeTemplate.tsx):
 * the name and title fallbacks, the date texts, the project link, the shown
 * skills and contacts, and one view per list entry. A template is this shared
 * derivation with its own bullet marker and its own date format.
 */
module TemplateCommon {
  import opened ResumeTypes
  import opened TextLines

  const YourName: string := "Your Name"
  const YourTitle: string := "Your Title"
  const Present: string := "Present"

  /** `personalInfo.name || 'Your Name'`: the heading is never empty. */
  function DisplayName(p: PersonalInfo): (r: string)
    ensures r != ""
    ensures p.name != "" ==> r == p.name
    ensures p.name == "" ==> r == YourName
  {
    if p.name != "" then p.name else YourName
  }

  /** `personalInfo.title || 'Your Title'`. */
  function DisplayTitle(p: PersonalInfo): (r: string)
    ensures r != ""
    ensures p.title != "" ==> r == p.title
    ensures p.title == "" ==> r == YourTitle
  {
    if p.title != "" then p.title else YourTitle
  }

  /**
   * `formatDate`: the empty string stays empty; any other date goes to the
   * locale formatter, which is a parameter here (`month: 'short'` in two
   * templates, `'long'` in the third).
   */
  function FormatDate(d: string, locale: string -> string): string {
    if d == "" then "" else locale(d)
  }

  /** An experience end date: the sentinel `'Present'` is shown verbatim, any other goes through `formatDate`. */
  function EndDateText(endDate: string, locale: string -> string): string {
    if endDate == Present then Present else FormatDate(endDate, locale)
  }

  /** `href={`https://${proj.link}`}`: the link with the scheme in front. */
  function ProjectHref(link: string): string {
    "https://" + link
  }

  /** Distinct links give distinct targets: the shown link can be read back from the `href`. */
  lemma ProjectHrefInjective(a: string, b: string)
    ensures ProjectHref(a) == ProjectHref(b) ==> a == b
  {
    if ProjectHref(a) == ProjectHref(b) {
      assert a == ProjectHref(a)[8..];
      assert b == ProjectHref(b)[8..];
    }
  }

  /** `skills.map(skill => skill.name && ...)`: the skills with a non-empty name, in list order. */
  function ShownSkills(skills: seq<Skill>): (r: seq<Skill>)
    ensures |r| <= |skills|
    ensures forall i :: 0 <= i < |r| ==> r[i].name != ""
    ensures forall s :: s in r <==> s in skills && s.name != ""
    decreases |skills|
  {
    if skills == [] then []
    else (if skills[0].name == "" then [] else [skills[0]]) + ShownSkills(skills[1..])
  }

  /** Showing skills distributes over concatenation, so the list order is kept. */
  lemma {:induction false} ShownSkillsAppend(a: seq<Skill>, b: seq<Skill>)
    ensures ShownSkills(a + b) == ShownSkills(a) + ShownSkills(b)
    decreases |a|
  {
    if a == [] {
      assert a + b == b;
    } else {
      assert (a + b)[1..] == a[1..] + b;
      ShownSkillsAppend(a[1..], b);
      var h := if a[0].name == "" then [] else [a[0]];
      calc {
        ShownSkills(a + b);
        h + ShownSkills(a[1..] + b);
        h + (ShownSkills(a[1..]) + ShownSkills(b));
        (h + ShownSkills(a[1..])) + ShownSkills(b);
      }
    }
  }

  /** `skills.map(skill => skill.name)`. */
  function SkillNames(skills: seq<Skill>): (r: seq<string>)
    ensures |r| == |skills| && forall i :: 0 <= i < |r| ==> r[i] == skills[i].name
  {
    seq(|skills|, i requires 0 <= i < |skills| => skills[i].name)
  }

  /** Filtering skills and then taking names equals taking names and then dropping the empty ones. */
  lemma {:induction false} NamesOfShownSkills(skills: seq<Skill>)
    ensures SkillNames(ShownSkills(skills)) == NonEmpty(SkillNames(skills))
    decreases |skills|
  {
    if skills != [] {
      NamesOfShownSkills(skills[1..]);
      var h := if skills[0].name == "" then [] else [skills[0]];
      assert ShownSkills(skills) == h + ShownSkills(skills[1..]);
      SkillNamesAppend(h, ShownSkills(skills[1..]));
      var names := SkillNames(skills);
      assert names[1..] == SkillNames(skills[1..]);
      assert NonEmpty(names) == (if names[0] == "" then [] else [names[0]]) + NonEmpty(names[1..]);
      assert SkillNames(h) == if skills[0].name == "" then [] else [names[0]];
    }
  }

  /** Taking names distributes over concatenation. */
  lemma SkillNamesAppend(a: seq<Skill>, b: seq<Skill>)
    ensures SkillNames(a + b) == SkillNames(a) + SkillNames(b)
  {
    var l, r := SkillNames(a + b), SkillNames(a) + SkillNames(b);
    forall k | 0 <= k < |l| ensures l[k] == r[k] {
      if k < |a| { assert (a + b)[k] == a[k]; } else { assert (a + b)[k] == b[k - |a|]; }
    }
  }

  /** One shown contact line: which field, and its text. */
  datatype ContactItem = ContactItem(field: PersonalField, value: string)

  /** The contact order of the classic and modern templates. */
  const ContactOrder: seq<PersonalField> := [Phone, Email, Location, Linkedin, Github]

  /** `personalInfo.<f> && <item>` for each field in turn: the non-empty ones, in the given order. */
  function Contacts(p: PersonalInfo, fields: seq<PersonalField>): (r: seq<ContactItem>)
    ensures |r| <= |fields|
    ensures forall i :: 0 <= i < |r| ==> r[i].field in fields && r[i].value == PersonalGet(p, r[i].field) && r[i].value != ""
    decreases |fields|
  {
    if fields == [] then [] else ContactHead(p, fields[0]) + Contacts(p, fields[1..])
  }

  /** `personalInfo.<f> && <item>` for one field. */
  function ContactHead(p: PersonalInfo, f: PersonalField): seq<ContactItem> {
    if PersonalGet(p, f) == "" then [] else [ContactItem(f, PersonalGet(p, f))]
  }

  /** A field's contact line appears exactly when the field is in the order and non-empty. */
  lemma {:induction false} ContactShownIff(p: PersonalInfo, fields: seq<PersonalField>, f: PersonalField)
    ensures ContactItem(f, PersonalGet(p, f)) in Contacts(p, fields) <==> f in fields && PersonalGet(p, f) != ""
    decreases |fields|
  {
    if fields != [] {
      ContactShownIff(p, fields[1..], f);
      assert fields == [fields[0]] + fields[1..];
    }
  }

  /** Contacts distribute over concatenation of the field order, so the order is kept. */
  lemma {:induction false} ContactsAppend(p: PersonalInfo, a: seq<PersonalField>, b: seq<PersonalField>)
    ensures Contacts(p, a + b) == Contacts(p, a) + Contacts(p, b)
    decreases |a|
  {
    if a == [] {
      assert a + b == b;
    } else {
      assert (a + b)[1..] == a[1..] + b;
      ContactsAppend(p, a[1..], b);
      var h := ContactHead(p, a[0]);
      calc {
        Contacts(p, a + b);
        h + Contacts(p, a[1..] + b);
        h + (Contacts(p, a[1..]) + Contacts(p, b));
        (h + Contacts(p, a[1..])) + Contacts(p, b);
      }
    }
  }

  /** With every field filled, all five contacts show, phone first and github last. */
  lemma AllContactsShown(p: PersonalInfo)
    requires p.phone != "" && p.email != "" && p.location != "" && p.linkedin != "" && p.github != ""
    ensures Contacts(p, ContactOrder)
         == [ContactItem(Phone, p.phone), ContactItem(Email, p.email), ContactItem(Location, p.location),
             ContactItem(Linkedin, p.linkedin), ContactItem(Github, p.github)]
  {
    var g, l, c, e, ph := ContactItem(Github, p.github), ContactItem(Linkedin, p.linkedin),
      ContactItem(Location, p.location), ContactItem(Email, p.email), ContactItem(Phone, p.phone);
    SetFieldLeads(p, Github, []);
    ConsOne(Github);
    ConsOne(g);
    SetFieldLeads(p, Linkedin, [Github]);
    ConsTwo(Linkedin, Github);
    ConsTwo(l, g);
    SetFieldLeads(p, Location, [Linkedin, Github]);
    ConsThree(Location, Linkedin, Github);
    ConsThree(c, l, g);
    SetFieldLeads(p, Email, [Location, Linkedin, Github]);
    ConsFour(Email, Location, Linkedin, Github);
    ConsFour(e, c, l, g);
    SetFieldLeads(p, Phone, [Email, Location, Linkedin, Github]);
    ConsFive(Phone, Email, Location, Linkedin, Github);
    ConsFive(ph, e, c, l, g);
  }

  lemma ConsOne<T>(x: T)
    ensures [x] + [] == [x]
  {
  }

  lemma ConsTwo<T>(x: T, a: T)
    ensures [x] + [a] == [x, a]
  {
  }

  lemma ConsThree<T>(x: T, a: T, b: T)
    ensures [x] + [a, b] == [x, a, b]
  {
  }

  lemma ConsFour<T>(x: T, a: T, b: T, c: T)
    ensures [x] + [a, b, c] == [x, a, b, c]
  {
  }

  lemma ConsFive<T>(x: T, a: T, b: T, c: T, d: T)
    ensures [x] + [a, b, c, d] == [x, a, b, c, d]
  {
  }

  /** A set field at the head of the order contributes its item in front of the rest. */
  lemma SetFieldLeads(p: PersonalInfo, f: PersonalField, rest: seq<PersonalField>)
    requires PersonalGet(p, f) != ""
    ensures Contacts(p, [f] + rest) == [ContactItem(f, PersonalGet(p, f))] + Contacts(p, rest)
  {
    assert ([f] + rest)[1..] == rest;
  }

  /** One experience entry as shown. */
  datatype ExperienceView = ExperienceView(role: string, company: string, dates: string, bullets: seq<string>)

  /** One project entry as shown. */
  datatype ProjectView = ProjectView(name: string, href: string, linkText: string, description: string)

  /** One education entry as shown. */
  datatype EducationView = EducationView(institution: string, degree: string, dates: string)

  /** `{formatDate(exp.startDate)} - {end}`, the end keeping `'Present'`. */
  function ExperienceDates(e: WorkExperience, locale: string -> string): (r: string)
    ensures e.endDate == Present ==> r == FormatDate(e.startDate, locale) + " - " + Present
    ensures e.endDate == "" ==> r == FormatDate(e.startDate, locale) + " - "
    ensures e.endDate != "" && e.endDate != Present ==> r == FormatDate(e.startDate, locale) + " - " + locale(e.endDate)
    ensures e.startDate == "" ==> " - " <= r
    ensures e.startDate == "" && e.endDate == "" ==> r == " - "
  {
    FormatDate(e.startDate, locale) + " - " + EndDateText(e.endDate, locale)
  }

  /**
   * The formatter is consulted only for dates that are set, and for an
   * experience not for `'Present'`: formatters that agree on those dates give
   * the same text.
   */
  lemma ExperienceDatesUseSetDatesOnly(e: WorkExperience, l1: string -> string, l2: string -> string)
    requires e.startDate != "" ==> l1(e.startDate) == l2(e.startDate)
    requires e.endDate != "" && e.endDate != Present ==> l1(e.endDate) == l2(e.endDate)
    ensures ExperienceDates(e, l1) == ExperienceDates(e, l2)
  {
    assert FormatDate(e.startDate, l1) == FormatDate(e.startDate, l2);
    assert EndDateText(e.endDate, l1) == EndDateText(e.endDate, l2);
  }

  /** With the same dates, experience and education show the same text unless the end is `'Present'`. */
  lemma DatesDifferOnlyAtPresent(e: WorkExperience, d: Education, locale: string -> string)
    requires e.startDate == d.startDate && e.endDate == d.endDate && e.endDate != Present
    ensures ExperienceDates(e, locale) == EducationDates(d, locale)
  {
    assert EndDateText(e.endDate, locale) == FormatDate(d.endDate, locale);
  }

  /** `{formatDate(edu.startDate)} - {formatDate(edu.endDate)}`: education has no `'Present'` case. */
  function EducationDates(e: Education, locale: string -> string): (r: string)
    ensures e.endDate == Present ==> r == FormatDate(e.startDate, locale) + " - " + locale(Present)
    ensures e.endDate == "" ==> r == FormatDate(e.startDate, locale) + " - "
    ensures e.endDate != "" ==> r == FormatDate(e.startDate, locale) + " - " + locale(e.endDate)
    ensures e.startDate == "" && e.endDate == "" ==> r == " - "
  {
    FormatDate(e.startDate, locale) + " - " + FormatDate(e.endDate, locale)
  }

  function ExperienceItem(e: WorkExperience, marker: string, locale: string -> string): ExperienceView {
    ExperienceView(e.role, e.company, ExperienceDates(e, locale), BulletLines(e.description, marker))
  }

  function ProjectItem(p: Project): ProjectView {
    ProjectView(p.name, ProjectHref(p.link), p.link, p.description)
  }

  function EducationItem(e: Education, locale: string -> string): EducationView {
    EducationView(e.institution, e.degree, EducationDates(e, locale))
  }

  /** The whole page of the classic and modern templates. */
  datatype ResumeView = ResumeView(
    name: string,
    title: string,
    contacts: seq<ContactItem>,
    summary: string,
    experience: seq<ExperienceView>,
    projects: seq<ProjectView>,
    education: seq<EducationView>,
    skills: seq<Skill>)

  /**
   * The page for one snapshot: every list entry shown in list order, the
   * headings never empty, only the non-empty contacts and skills.
   */
  function Render(data: ResumeData, marker: string, locale: string -> string): (v: ResumeView)
    ensures v.name == DisplayName(data.personalInfo) && v.title == DisplayTitle(data.personalInfo)
    ensures v.name != "" && v.title != ""
    ensures v.summary == data.summary
    ensures v.contacts == Contacts(data.personalInfo, ContactOrder)
    ensures forall i :: 0 <= i < |v.contacts| ==> v.contacts[i].value != ""
    ensures v.skills == ShownSkills(data.skills)
    ensures forall s :: s in v.skills <==> s in data.skills && s.name != ""
    ensures |v.experience| == |data.experience| && |v.projects| == |data.projects| && |v.education| == |data.education|
    ensures forall i :: 0 <= i < |v.experience| ==>
      && v.experience[i].role == data.experience[i].role
      && v.experience[i].company == data.experience[i].company
      && v.experience[i].dates == ExperienceDates(data.experience[i], locale)
      && v.experience[i].bullets == BulletLines(data.experience[i].description, marker)
    ensures forall i :: 0 <= i < |v.projects| ==>
      && v.projects[i].name == data.projects[i].name
      && v.projects[i].linkText == data.projects[i].link
      && v.projects[i].href == ProjectHref(v.projects[i].linkText)
      && v.projects[i].description == data.projects[i].description
    ensures forall i :: 0 <= i < |v.education| ==>
      && v.education[i].institution == data.education[i].institution
      && v.education[i].degree == data.education[i].degree
      && v.education[i].dates == EducationDates(data.education[i], locale)
  {
    var experience := seq(|data.experience|, i requires 0 <= i < |data.experience| =>
      ExperienceItem(data.experience[i], marker, locale));
    var projects := seq(|data.projects|, i requires 0 <= i < |data.projects| => ProjectItem(data.projects[i]));
    var education := seq(|data.education|, i requires 0 <= i < |data.education| =>
      EducationItem(data.education[i], locale));
    ResumeView(
      DisplayName(data.personalInfo),
      DisplayTitle(data.personalInfo),
      Contacts(data.personalInfo, ContactOrder),
      data.summary,
      experience,
      projects,
      education,
      ShownSkills(data.skills))
  }

  /** A contact field is on the page exactly when it is set. */
  lemma RenderShowsSetContacts(data: ResumeData, marker: string, locale: string -> string, f: PersonalField)
    requires f in ContactOrder
    ensures ContactItem(f, PersonalGet(data.personalInfo, f)) in Render(data, marker, locale).contacts
        <==> PersonalGet(data.personalInfo, f) != ""
  {
    ContactShownIff(data.personalInfo, ContactOrder, f);
  }

  /** Appending skills to the record appends their shown badges after the existing ones. */
  lemma RenderSkillsAppend(data: ResumeData, more: seq<Skill>, marker: string, locale: string -> string)
    ensures Render(data.(skills := data.skills + more), marker, locale).skills
         == Render(data, marker, locale).skills + ShownSkills(more)
  {
    ShownSkillsAppend(data.skills, more);
  }
}
