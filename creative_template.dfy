/**
 * The creative template (components/CreativeTemplate.tsx): bullet marker
 * `•` (U+2022), `formatDate` using `month: 'long'`, a single contact line
 * of tokens with `&bull;` separators and no github, and the skills as one
 * line joined with ` ・ ` (U+30FB).
 */
module CreativeTemplate {
  import opened TextLines
  import opened TemplateCommon
  import opened ResumeTypes

  const Bullet: string := "\U{2022}"

  /** The `<span>&bull;</span>` placed in front of each later contact. */
  const ContactSeparator: string := "\U{2022}"

  /** The argument of `join` for the skills line. */
  const SkillSeparator: string := " \U{30FB} "

  /** `{value && <><span>&bull;</span><span>{value}</span></>}`. */
  function Separated(value: string): seq<string> {
    if value == "" then [] else [ContactSeparator, value]
  }

  /**
   * The contact line as its sequence of spans: the phone alone, then a
   * separator and the value for each of email, location and linkedin that is
   * not empty. Every token is non-empty, and the line has one token for the
   * phone (when set) and two for each other set field; `ContactLineOrder`
   * says which token is where.
   */
  function ContactLine(p: PersonalInfo): (r: seq<string>)
    ensures forall i :: 0 <= i < |r| ==> r[i] != ""
    ensures |r| == (if p.phone == "" then 0 else 1) + 2 * |NonEmpty([p.email, p.location, p.linkedin])|
  {
    var line := (if p.phone == "" then [] else [p.phone]) + Separated(p.email) + Separated(p.location) + Separated(p.linkedin);
    assert NonEmpty([p.email, p.location, p.linkedin])
        == (if p.email == "" then [] else [p.email]) + NonEmpty([p.location, p.linkedin]) by {
      assert [p.email, p.location, p.linkedin][1..] == [p.location, p.linkedin];
    }
    assert NonEmpty([p.location, p.linkedin])
        == (if p.location == "" then [] else [p.location]) + NonEmpty([p.linkedin]) by {
      assert [p.location, p.linkedin][1..] == [p.linkedin];
    }
    line
  }

  /** The tokens of a list of set values: each value after its own separator. */
  function SeparatedAll(values: seq<string>): (r: seq<string>)
    ensures |r| == 2 * |values|
    decreases |values|
  {
    if values == [] then [] else [ContactSeparator, values[0]] + SeparatedAll(values[1..])
  }

  /** Value k sits at position 2k + 1, right after its separator. */
  lemma {:induction false} SeparatedAllAt(values: seq<string>, k: nat)
    requires k < |values|
    ensures SeparatedAll(values)[2 * k] == ContactSeparator && SeparatedAll(values)[2 * k + 1] == values[k]
    decreases k
  {
    if k > 0 {
      SeparatedAllAt(values[1..], k - 1);
    }
  }

  lemma {:induction false} SeparatedAllAppend(a: seq<string>, b: seq<string>)
    ensures SeparatedAll(a + b) == SeparatedAll(a) + SeparatedAll(b)
    decreases |a|
  {
    if a == [] {
      assert a + b == b;
    } else {
      assert (a + b)[1..] == a[1..] + b;
      SeparatedAllAppend(a[1..], b);
      var h := [ContactSeparator, a[0]];
      calc {
        SeparatedAll(a + b);
        h + SeparatedAll(a[1..] + b);
        h + (SeparatedAll(a[1..]) + SeparatedAll(b));
        (h + SeparatedAll(a[1..])) + SeparatedAll(b);
      }
    }
  }

  /** A value as a list of at most one: itself when set, nothing otherwise. */
  function IfSet(value: string): seq<string> {
    if value == "" then [] else [value]
  }

  /** One field's `value && ...` is the tokens of that value when it is set, and nothing otherwise. */
  lemma SeparatedOne(value: string)
    ensures Separated(value) == SeparatedAll(IfSet(value))
  {
    if value != "" {
      assert [value][1..] == [];
    }
  }

  /** The set values among three, in order. */
  lemma NonEmptyThree(a: string, b: string, c: string)
    ensures NonEmpty([a, b, c]) == IfSet(a) + IfSet(b) + IfSet(c)
  {
    assert [c][1..] == [];
    assert NonEmpty([c]) == IfSet(c) + NonEmpty([]);
    assert [b, c][1..] == [c];
    assert NonEmpty([b, c]) == IfSet(b) + NonEmpty([c]);
    assert [a, b, c][1..] == [b, c];
    assert NonEmpty([a, b, c]) == IfSet(a) + NonEmpty([b, c]);
  }

  /** The three separated fields are the tokens of the set ones among them. */
  lemma SeparatedTail(a: string, b: string, c: string)
    ensures Separated(a) + Separated(b) + Separated(c) == SeparatedAll(NonEmpty([a, b, c]))
  {
    NonEmptyThree(a, b, c);
    SeparatedOne(a);
    SeparatedOne(b);
    SeparatedOne(c);
    SeparatedAllAppend(IfSet(a), IfSet(b));
    SeparatedAllAppend(IfSet(a) + IfSet(b), IfSet(c));
  }

  /**
   * The order of the creative contact line: the phone, when set, comes first;
   * then each set field of email, location and linkedin, in that order,
   * right after its own separator, even when there is no phone.
   */
  lemma ContactLineOrder(p: PersonalInfo)
    ensures p.phone != "" ==> ContactLine(p)[0] == p.phone
    ensures var q := if p.phone == "" then 0 else 1;
      var vs := NonEmpty([p.email, p.location, p.linkedin]);
      forall k :: 0 <= k < |vs| ==> ContactLine(p)[q + 2 * k] == ContactSeparator && ContactLine(p)[q + 2 * k + 1] == vs[k]
  {
    var vs := NonEmpty([p.email, p.location, p.linkedin]);
    var head := if p.phone == "" then [] else [p.phone];
    SeparatedTail(p.email, p.location, p.linkedin);
    var line := ContactLine(p);
    assert line == head + SeparatedAll(vs);
    forall k | 0 <= k < |vs|
      ensures line[|head| + 2 * k] == ContactSeparator && line[|head| + 2 * k + 1] == vs[k]
    {
      SeparatedAllAt(vs, k);
    }
  }

  /** The github field never appears: changing it leaves the contact line as it was. */
  lemma GithubNotShown(p: PersonalInfo, github: string)
    ensures ContactLine(p.(github := github)) == ContactLine(p)
  {
  }

  /** Without a phone, a set email still gets its separator, which then leads the line. */
  lemma SeparatorWithoutPhone(p: PersonalInfo)
    requires p.phone == "" && p.email != ""
    ensures ContactLine(p)[..2] == [ContactSeparator, p.email]
  {
  }

  /** With the four shown fields set, the line alternates values and separators. */
  lemma FullContactLine(p: PersonalInfo)
    requires p.phone != "" && p.email != "" && p.location != "" && p.linkedin != ""
    ensures ContactLine(p)
         == [p.phone, ContactSeparator, p.email, ContactSeparator, p.location, ContactSeparator, p.linkedin]
  {
  }

  /** `skills.map(skill => skill.name).filter(Boolean).join(' ・ ')`. */
  function SkillsLine(skills: seq<Skill>): (r: string)
    ensures NonEmpty(SkillNames(skills)) == [] ==> r == ""
    ensures |NonEmpty(SkillNames(skills))| == 1 ==> r == NonEmpty(SkillNames(skills))[0]
  {
    Join(NonEmpty(SkillNames(skills)), SkillSeparator)
  }

  /** The skills line lists the same skills, in the same order, as the other templates' skill badges. */
  lemma SkillsLineMatchesShownSkills(skills: seq<Skill>)
    ensures SkillsLine(skills) == Join(SkillNames(ShownSkills(skills)), SkillSeparator)
  {
    NamesOfShownSkills(skills);
  }

  /** Two lists that each show a skill join with exactly one separator between them. */
  lemma SkillsLineAppend(a: seq<Skill>, b: seq<Skill>)
    requires SkillsLine(a) != "" && SkillsLine(b) != ""
    ensures SkillsLine(a + b) == SkillsLine(a) + SkillSeparator + SkillsLine(b)
  {
    SkillNamesAppend(a, b);
    NonEmptyAppend(SkillNames(a), SkillNames(b));
    JoinAppend(NonEmpty(SkillNames(a)), NonEmpty(SkillNames(b)), SkillSeparator);
  }

  /** A skill with an empty name adds nothing to the line, not even a separator. */
  lemma EmptySkillAddsNothing(a: seq<Skill>, id: string, b: seq<Skill>)
    ensures SkillsLine(a + [Skill(id, "")] + b) == SkillsLine(a + b)
  {
    var na, nb := SkillNames(a), SkillNames(b);
    SkillNamesAppend(a + [Skill(id, "")], b);
    SkillNamesAppend(a, [Skill(id, "")]);
    SkillNamesAppend(a, b);
    assert SkillNames([Skill(id, "")]) == [""];
    NonEmptyAppend(na + [""], nb);
    NonEmptyAppend(na, [""]);
    NonEmptyAppend(na, nb);
    assert NonEmpty([""]) == [];
    calc {
      NonEmpty(na + [""] + nb);
      NonEmpty(na + [""]) + NonEmpty(nb);
      NonEmpty(na) + NonEmpty([""]) + NonEmpty(nb);
      NonEmpty(na) + NonEmpty(nb);
      NonEmpty(na + nb);
    }
  }

  /** The creative page. */
  datatype CreativeView = CreativeView(
    name: string,
    title: string,
    contacts: seq<string>,
    summary: string,
    experience: seq<ExperienceView>,
    projects: seq<ProjectView>,
    education: seq<EducationView>,
    skills: string)

  /** The creative page; `longDate` stands for the `month: 'long'` locale formatter. */
  function Page(data: ResumeData, longDate: string -> string): (v: CreativeView)
    ensures v.name == DisplayName(data.personalInfo) && v.title == DisplayTitle(data.personalInfo)
    ensures v.name != "" && v.title != ""
    ensures v.summary == data.summary
    ensures v.contacts == ContactLine(data.personalInfo)
    ensures v.skills == SkillsLine(data.skills)
    ensures |v.experience| == |data.experience| && |v.projects| == |data.projects| && |v.education| == |data.education|
    ensures forall i :: 0 <= i < |v.experience| ==>
      && v.experience[i].role == data.experience[i].role
      && v.experience[i].company == data.experience[i].company
      && v.experience[i].dates == ExperienceDates(data.experience[i], longDate)
      && v.experience[i].bullets == BulletLines(data.experience[i].description, Bullet)
    ensures forall i :: 0 <= i < |v.education| ==>
      && v.education[i].institution == data.education[i].institution
      && v.education[i].degree == data.education[i].degree
      && v.education[i].dates == EducationDates(data.education[i], longDate)
    ensures forall i :: 0 <= i < |v.projects| ==> v.projects[i].href == ProjectHref(data.projects[i].link)
  {
    var shared := Render(data, Bullet, longDate);
    CreativeView(
      shared.name, shared.title, ContactLine(data.personalInfo), shared.summary,
      shared.experience, shared.projects, shared.education, SkillsLine(data.skills))
  }
}
