/**
 * The editing form (components/ResumeForm.tsx): the pure construction of the
 * action each handler dispatches, and the component state (`isModalOpen`,
 * `modalTarget`, `aiIsLoading`) together with the store the handlers
 * dispatch into.
 */
module ResumeForm {
  import opened Wrappers
  import opened ResumeTypes
  import opened EntryLists
  import opened ResumeStore

  /** The `type` argument of the list handlers: `'EXPERIENCE' | 'EDUCATION' | 'SKILL' | 'PROJECT'`. */
  datatype ListKind = ExperienceList | EducationList | SkillList | ProjectList

  /** Every key of the four entry types. */
  datatype Field = IdField | Company | Role | StartDate | EndDate | Description | Institution | Degree | NameField | Link

  /** `keyof WorkExperience`, `keyof Education`, `keyof Skill`, `keyof Project`: the keys the overloads admit. */
  predicate IsFieldOf(kind: ListKind, f: Field) {
    match kind
    case ExperienceList => f.IdField? || f.Company? || f.Role? || f.StartDate? || f.EndDate? || f.Description?
    case EducationList => f.IdField? || f.Institution? || f.Degree? || f.StartDate? || f.EndDate?
    case SkillList => f.IdField? || f.NameField?
    case ProjectList => f.IdField? || f.NameField? || f.Description? || f.Link?
  }

  /** The store section a kind's actions write. */
  function KindSection(kind: ListKind): (sec: Section)
    ensures sec in {ExperienceSection, EducationSection, SkillsSection, ProjectsSection}
  {
    match kind
    case ExperienceList => ExperienceSection
    case EducationList => EducationSection
    case SkillList => SkillsSection
    case ProjectList => ProjectsSection
  }

  // ---------------------------------------------------------------------------
  // Reading and writing one key of an entry

  function ExperienceGet(e: WorkExperience, f: Field): string
    requires IsFieldOf(ExperienceList, f)
  {
    match f
    case IdField => e.id
    case Company => e.company
    case Role => e.role
    case StartDate => e.startDate
    case EndDate => e.endDate
    case Description => e.description
  }

  /** `{ ...e, [f]: v }`: key `f` holds `v`, every other key keeps its value. */
  function ExperienceSet(e: WorkExperience, f: Field, v: string): (r: WorkExperience)
    requires IsFieldOf(ExperienceList, f)
    ensures ExperienceGet(r, f) == v
    ensures forall g :: IsFieldOf(ExperienceList, g) && g != f ==> ExperienceGet(r, g) == ExperienceGet(e, g)
  {
    match f
    case IdField => e.(id := v)
    case Company => e.(company := v)
    case Role => e.(role := v)
    case StartDate => e.(startDate := v)
    case EndDate => e.(endDate := v)
    case Description => e.(description := v)
  }

  function EducationGet(e: Education, f: Field): string
    requires IsFieldOf(EducationList, f)
  {
    match f
    case IdField => e.id
    case Institution => e.institution
    case Degree => e.degree
    case StartDate => e.startDate
    case EndDate => e.endDate
  }

  /** `{ ...e, [f]: v }` on an education entry. */
  function EducationSet(e: Education, f: Field, v: string): (r: Education)
    requires IsFieldOf(EducationList, f)
    ensures EducationGet(r, f) == v
    ensures forall g :: IsFieldOf(EducationList, g) && g != f ==> EducationGet(r, g) == EducationGet(e, g)
  {
    match f
    case IdField => e.(id := v)
    case Institution => e.(institution := v)
    case Degree => e.(degree := v)
    case StartDate => e.(startDate := v)
    case EndDate => e.(endDate := v)
  }

  function SkillGet(s: Skill, f: Field): string
    requires IsFieldOf(SkillList, f)
  {
    match f
    case IdField => s.id
    case NameField => s.name
  }

  /** `{ ...s, [f]: v }` on a skill. */
  function SkillSet(s: Skill, f: Field, v: string): (r: Skill)
    requires IsFieldOf(SkillList, f)
    ensures SkillGet(r, f) == v
    ensures forall g :: IsFieldOf(SkillList, g) && g != f ==> SkillGet(r, g) == SkillGet(s, g)
  {
    match f
    case IdField => s.(id := v)
    case NameField => s.(name := v)
  }

  function ProjectGet(p: Project, f: Field): string
    requires IsFieldOf(ProjectList, f)
  {
    match f
    case IdField => p.id
    case NameField => p.name
    case Description => p.description
    case Link => p.link
  }

  /** `{ ...p, [f]: v }` on a project. */
  function ProjectSet(p: Project, f: Field, v: string): (r: Project)
    requires IsFieldOf(ProjectList, f)
    ensures ProjectGet(r, f) == v
    ensures forall g :: IsFieldOf(ProjectList, g) && g != f ==> ProjectGet(r, g) == ProjectGet(p, g)
  {
    match f
    case IdField => p.(id := v)
    case NameField => p.(name := v)
    case Description => p.(description := v)
    case Link => p.(link := v)
  }

  // ---------------------------------------------------------------------------
  // The action each handler dispatches

  /** `dispatch` of an optional action: nothing dispatched leaves the store as it was. */
  function Dispatch(state: ResumeData, a: Option<ResumeAction>): ResumeData {
    if a.Some? then Reduce(state, a.value) else state
  }

  /** `handlePersonalInfoChange`: a patch that carries exactly the one key `field`. */
  function PersonalInfoAction(field: PersonalField, value: string): (a: ResumeAction)
    ensures a.UpdatePersonalInfo?
    ensures PatchGet(a.patch, field) == Some(value)
    ensures forall g :: g != field ==> PatchGet(a.patch, g) == None
  {
    var none := PersonalInfoPatch(None, None, None, None, None, None, None);
    UpdatePersonalInfo(
      match field
      case Name => none.(name := Some(value))
      case Title => none.(title := Some(value))
      case Phone => none.(phone := Some(value))
      case Email => none.(email := Some(value))
      case Linkedin => none.(linkedin := Some(value))
      case Github => none.(github := Some(value))
      case Location => none.(location := Some(value)))
  }

  /** Typing into one personal field changes that field and nothing else in the record. */
  lemma PersonalInfoChangeEditsOneField(state: ResumeData, field: PersonalField, value: string)
    ensures var t := Reduce(state, PersonalInfoAction(field, value));
      && PersonalGet(t.personalInfo, field) == value
      && (forall g :: g != field ==> PersonalGet(t.personalInfo, g) == PersonalGet(state.personalInfo, g))
      && SameOutside(state, t, PersonalInfoSection)
  {
  }

  /**
   * `handleDynamicChange`: `find` the first entry of the chosen list carrying
   * `id`; on a hit, the UPDATE of that kind whose payload is the entry with
   * key `field` set to `value`; on a miss, nothing.
   */
  function DynamicChangeAction(state: ResumeData, kind: ListKind, id: string, field: Field, value: string)
    : (r: Option<ResumeAction>)
    requires IsFieldOf(kind, field)
    ensures r.None? <==> !ListHasId(state, KindSection(kind), id)
    ensures r.Some? ==> IsUpdate(r.value) && SectionOf(r.value) == KindSection(kind)
    ensures r.Some? && kind == ExperienceList ==>
      var i := FirstIndex(state.experience, id, ExperienceId).value;
      r.value == UpdateExperience(ExperienceSet(state.experience[i], field, value))
    ensures r.Some? && kind == EducationList ==>
      var i := FirstIndex(state.education, id, EducationId).value;
      r.value == UpdateEducation(EducationSet(state.education[i], field, value))
    ensures r.Some? && kind == SkillList ==>
      var i := FirstIndex(state.skills, id, SkillId).value;
      r.value == UpdateSkill(SkillSet(state.skills[i], field, value))
    ensures r.Some? && kind == ProjectList ==>
      var i := FirstIndex(state.projects, id, ProjectId).value;
      r.value == UpdateProject(ProjectSet(state.projects[i], field, value))
  {
    match kind
    case ExperienceList =>
      (match Find(state.experience, id, ExperienceId)
       case None => None
       case Some(item) => Some(UpdateExperience(ExperienceSet(item, field, value))))
    case EducationList =>
      (match Find(state.education, id, EducationId)
       case None => None
       case Some(item) => Some(UpdateEducation(EducationSet(item, field, value))))
    case SkillList =>
      (match Find(state.skills, id, SkillId)
       case None => None
       case Some(item) => Some(UpdateSkill(SkillSet(item, field, value))))
    case ProjectList =>
      (match Find(state.projects, id, ProjectId)
       case None => None
       case Some(item) => Some(UpdateProject(ProjectSet(item, field, value))))
  }

  /** With unique ids, the first entry carrying an id is the one at any index that carries it. */
  lemma FirstIndexUnique<T>(xs: seq<T>, key: T -> string, i: nat)
    requires UniqueIds(xs, key) && i < |xs|
    ensures FirstIndex(xs, key(xs[i]), key) == Some(i)
  {
    var r := FirstIndex(xs, key(xs[i]), key);
    assert HasId(xs, key(xs[i]), key);
    var k := r.value;
    assert k <= i;
    assert k >= i;
  }

  /** With unique ids, `find` for an entry's id returns that entry. */
  lemma FindUniqueAt<T>(xs: seq<T>, key: T -> string, i: nat)
    requires UniqueIds(xs, key) && i < |xs|
    ensures Find(xs, key(xs[i]), key) == Some(xs[i])
  {
    FirstIndexUnique(xs, key, i);
  }

  /**
   * Composed with the reducer, and given unique ids and a key other than
   * `id`, a change to the entry at index `i` replaces that entry by itself
   * with the one key rewritten; every other entry and every other section
   * stays as it was.
   */
  lemma DynamicChangeEditsOneField(state: ResumeData, kind: ListKind, i: nat, field: Field, value: string)
    requires WellFormed(state) && IsFieldOf(kind, field) && field != IdField
    requires i < ListLength(state, KindSection(kind))
    ensures kind == ExperienceList ==>
      var id := state.experience[i].id;
      var t := Dispatch(state, DynamicChangeAction(state, kind, id, field, value));
      t.experience == state.experience[i := ExperienceSet(state.experience[i], field, value)]
      && SameOutside(state, t, ExperienceSection)
    ensures kind == EducationList ==>
      var id := state.education[i].id;
      var t := Dispatch(state, DynamicChangeAction(state, kind, id, field, value));
      t.education == state.education[i := EducationSet(state.education[i], field, value)]
      && SameOutside(state, t, EducationSection)
    ensures kind == SkillList ==>
      var id := state.skills[i].id;
      var t := Dispatch(state, DynamicChangeAction(state, kind, id, field, value));
      t.skills == state.skills[i := SkillSet(state.skills[i], field, value)]
      && SameOutside(state, t, SkillsSection)
    ensures kind == ProjectList ==>
      var id := state.projects[i].id;
      var t := Dispatch(state, DynamicChangeAction(state, kind, id, field, value));
      t.projects == state.projects[i := ProjectSet(state.projects[i], field, value)]
      && SameOutside(state, t, ProjectsSection)
  {
    match kind
    case ExperienceList => ExperienceChangeEditsOne(state, i, field, value);
    case EducationList => EducationChangeEditsOne(state, i, field, value);
    case SkillList => SkillChangeEditsOne(state, i, field, value);
    case ProjectList => ProjectChangeEditsOne(state, i, field, value);
  }

  lemma ExperienceChangeEditsOne(state: ResumeData, i: nat, field: Field, value: string)
    requires UniqueIds(state.experience, ExperienceId) && IsFieldOf(ExperienceList, field) && field != IdField && i < |state.experience|
    ensures var t := Dispatch(state, DynamicChangeAction(state, ExperienceList, state.experience[i].id, field, value));
      t == state.(experience := state.experience[i := ExperienceSet(state.experience[i], field, value)])
  {
    var xs := state.experience;
    var p := ExperienceSet(xs[i], field, value);
    ExperienceChangeAction(state, i, field, value);
    assert ExperienceGet(p, IdField) == ExperienceGet(xs[i], IdField);
    ReplaceUniqueAt(xs, p, ExperienceId, i);
    assert Reduce(state, UpdateExperience(p)) == state.(experience := ReplaceById(xs, p, ExperienceId));
  }

  lemma ExperienceChangeAction(state: ResumeData, i: nat, field: Field, value: string)
    requires UniqueIds(state.experience, ExperienceId) && IsFieldOf(ExperienceList, field) && i < |state.experience|
    ensures DynamicChangeAction(state, ExperienceList, state.experience[i].id, field, value)
         == Some(UpdateExperience(ExperienceSet(state.experience[i], field, value)))
  {
    FindUniqueAt(state.experience, ExperienceId, i);
  }

  lemma EducationChangeEditsOne(state: ResumeData, i: nat, field: Field, value: string)
    requires UniqueIds(state.education, EducationId) && IsFieldOf(EducationList, field) && field != IdField && i < |state.education|
    ensures var t := Dispatch(state, DynamicChangeAction(state, EducationList, state.education[i].id, field, value));
      t == state.(education := state.education[i := EducationSet(state.education[i], field, value)])
  {
    var xs := state.education;
    var p := EducationSet(xs[i], field, value);
    EducationChangeAction(state, i, field, value);
    assert EducationGet(p, IdField) == EducationGet(xs[i], IdField);
    ReplaceUniqueAt(xs, p, EducationId, i);
    assert Reduce(state, UpdateEducation(p)) == state.(education := ReplaceById(xs, p, EducationId));
  }

  lemma EducationChangeAction(state: ResumeData, i: nat, field: Field, value: string)
    requires UniqueIds(state.education, EducationId) && IsFieldOf(EducationList, field) && i < |state.education|
    ensures DynamicChangeAction(state, EducationList, state.education[i].id, field, value)
         == Some(UpdateEducation(EducationSet(state.education[i], field, value)))
  {
    FindUniqueAt(state.education, EducationId, i);
  }

  lemma SkillChangeEditsOne(state: ResumeData, i: nat, field: Field, value: string)
    requires UniqueIds(state.skills, SkillId) && IsFieldOf(SkillList, field) && field != IdField && i < |state.skills|
    ensures var t := Dispatch(state, DynamicChangeAction(state, SkillList, state.skills[i].id, field, value));
      t == state.(skills := state.skills[i := SkillSet(state.skills[i], field, value)])
  {
    var xs := state.skills;
    var p := SkillSet(xs[i], field, value);
    SkillChangeAction(state, i, field, value);
    assert SkillGet(p, IdField) == SkillGet(xs[i], IdField);
    ReplaceUniqueAt(xs, p, SkillId, i);
    assert Reduce(state, UpdateSkill(p)) == state.(skills := ReplaceById(xs, p, SkillId));
  }

  lemma SkillChangeAction(state: ResumeData, i: nat, field: Field, value: string)
    requires UniqueIds(state.skills, SkillId) && IsFieldOf(SkillList, field) && i < |state.skills|
    ensures DynamicChangeAction(state, SkillList, state.skills[i].id, field, value)
         == Some(UpdateSkill(SkillSet(state.skills[i], field, value)))
  {
    FindUniqueAt(state.skills, SkillId, i);
  }

  lemma ProjectChangeEditsOne(state: ResumeData, i: nat, field: Field, value: string)
    requires UniqueIds(state.projects, ProjectId) && IsFieldOf(ProjectList, field) && field != IdField && i < |state.projects|
    ensures var t := Dispatch(state, DynamicChangeAction(state, ProjectList, state.projects[i].id, field, value));
      t == state.(projects := state.projects[i := ProjectSet(state.projects[i], field, value)])
  {
    var xs := state.projects;
    var p := ProjectSet(xs[i], field, value);
    ProjectChangeAction(state, i, field, value);
    assert ProjectGet(p, IdField) == ProjectGet(xs[i], IdField);
    ReplaceUniqueAt(xs, p, ProjectId, i);
    var t := Reduce(state, UpdateProject(p));
    assert t.projects == xs[i := p];
    assert SameOutside(state, t, ProjectsSection);
  }

  lemma ProjectChangeAction(state: ResumeData, i: nat, field: Field, value: string)
    requires UniqueIds(state.projects, ProjectId) && IsFieldOf(ProjectList, field) && i < |state.projects|
    ensures DynamicChangeAction(state, ProjectList, state.projects[i].id, field, value)
         == Some(UpdateProject(ProjectSet(state.projects[i], field, value)))
  {
    FindUniqueAt(state.projects, ProjectId, i);
  }

  /** A change for an id the list does not hold dispatches nothing and so leaves the store as it was. */
  lemma DynamicChangeMissIsNoOp(state: ResumeData, kind: ListKind, id: string, field: Field, value: string)
    requires IsFieldOf(kind, field) && !ListHasId(state, KindSection(kind), id)
    ensures Dispatch(state, DynamicChangeAction(state, kind, id, field, value)) == state
  {
  }

  /**
   * Rewriting the `id` key itself sends an UPDATE carrying the new id, so the
   * reducer looks for the new id: when no entry holds it, the store is
   * unchanged. (No call site passes `id`; this is the reason the composition
   * above excludes it.)
   */
  lemma IdChangeTargetsNewId(state: ResumeData, kind: ListKind, id: string, value: string)
    requires !ListHasId(state, KindSection(kind), value)
    ensures Dispatch(state, DynamicChangeAction(state, kind, id, IdField, value)) == state
  {
    var a := DynamicChangeAction(state, kind, id, IdField, value);
    if a.Some? {
      assert TargetId(a.value) == value;
      ReduceUpdateMissingIsNoOp(state, a.value);
    }
  }

  /**
   * `addDynamicItem`: the ADD of that kind with the generated id `newId` and
   * every text key empty. The source's payload also carries the keys of the
   * other three kinds, all empty; a typed entry holds only its own.
   */
  function AddItemAction(kind: ListKind, newId: string): (a: ResumeAction)
    ensures IsAdd(a) && SectionOf(a) == KindSection(kind) && TargetId(a) == newId
    ensures a.AddExperience? ==> forall g :: IsFieldOf(ExperienceList, g) && g != IdField ==> ExperienceGet(a.experience, g) == ""
    ensures a.AddEducation? ==> forall g :: IsFieldOf(EducationList, g) && g != IdField ==> EducationGet(a.education, g) == ""
    ensures a.AddSkill? ==> forall g :: IsFieldOf(SkillList, g) && g != IdField ==> SkillGet(a.skill, g) == ""
    ensures a.AddProject? ==> forall g :: IsFieldOf(ProjectList, g) && g != IdField ==> ProjectGet(a.project, g) == ""
  {
    match kind
    case ExperienceList => AddExperience(WorkExperience(newId, "", "", "", "", ""))
    case EducationList => AddEducation(Education(newId, "", "", "", ""))
    case SkillList => AddSkill(Skill(newId, ""))
    case ProjectList => AddProject(Project(newId, "", "", ""))
  }

  /** `deleteDynamicItem`: the DELETE of that kind carrying exactly `id`. */
  function DeleteItemAction(kind: ListKind, id: string): (a: ResumeAction)
    ensures IsDelete(a) && SectionOf(a) == KindSection(kind) && TargetId(a) == id
  {
    match kind
    case ExperienceList => DeleteExperience(id)
    case EducationList => DeleteEducation(id)
    case SkillList => DeleteSkill(id)
    case ProjectList => DeleteProject(id)
  }

  /** Adding an item with a fresh id and then deleting that id restores the store; ids stay unique throughout. */
  lemma AddThenDeleteItemRestores(state: ResumeData, kind: ListKind, newId: string)
    requires !ListHasId(state, KindSection(kind), newId)
    ensures Reduce(Reduce(state, AddItemAction(kind, newId)), DeleteItemAction(kind, newId)) == state
    ensures WellFormed(state) ==> WellFormed(Reduce(state, AddItemAction(kind, newId)))
  {
    var a := AddItemAction(kind, newId);
    assert DeleteFor(a) == DeleteItemAction(kind, newId);
    ReduceAddThenDelete(state, a);
    if WellFormed(state) {
      ReducePreservesWellFormed(state, a);
    }
  }

  /** `ModalTarget`: the summary, or the experience entry with a given id. */
  datatype ModalTarget = SummaryTarget | ExperienceTarget(id: string)

  /**
   * `handleUseAIText`'s dispatch: none without a target; for the summary,
   * UPDATE_SUMMARY with the text; for an experience, the UPDATE replacing only
   * the first matching entry's `description`, or none when the id is gone.
   */
  function UseAITextAction(state: ResumeData, target: Option<ModalTarget>, text: string): (r: Option<ResumeAction>)
    ensures target.None? ==> r.None?
    ensures target == Some(SummaryTarget) ==> r == Some(UpdateSummary(text))
    ensures target.Some? && target.value.ExperienceTarget? ==>
      var id := target.value.id;
      (r.None? <==> !HasId(state.experience, id, ExperienceId))
      && (r.Some? ==> var i := FirstIndex(state.experience, id, ExperienceId).value;
                     r.value == UpdateExperience(state.experience[i].(description := text)))
  {
    match target
    case None => None
    case Some(SummaryTarget) => Some(UpdateSummary(text))
    case Some(ExperienceTarget(id)) =>
      match Find(state.experience, id, ExperienceId)
      case None => None
      case Some(e) => Some(UpdateExperience(e.(description := text)))
  }

  /** Accepting text for an experience entry, with unique ids, rewrites that entry's description and nothing else. */
  lemma UseAITextEditsDescription(state: ResumeData, i: nat, text: string)
    requires WellFormed(state) && i < |state.experience|
    ensures var t := Dispatch(state, UseAITextAction(state, Some(ExperienceTarget(state.experience[i].id)), text));
      t.experience == state.experience[i := state.experience[i].(description := text)]
      && SameOutside(state, t, ExperienceSection)
  {
    FirstIndexUnique(state.experience, ExperienceId, i);
    ReplaceUniqueAt(state.experience, state.experience[i].(description := text), ExperienceId, i);
  }

  /** The text shown when the generation service fails. */
  const GenerationFailure: string := "Sorry, an error occurred while generating content."

  // ---------------------------------------------------------------------------
  // The component state and its handlers

  /**
   * The form component: the store it dispatches into (a dispatch applies the
   * reducer at once) and its three state cells.
   */
  class Form {
    var state: ResumeData
    var isModalOpen: bool
    var modalTarget: Option<ModalTarget>
    var aiIsLoading: bool

    constructor (initial: ResumeData)
      ensures state == initial && !isModalOpen && modalTarget.None? && !aiIsLoading
    {
      state := initial;
      isModalOpen := false;
      modalTarget := None;
      aiIsLoading := false;
    }

    /** `{isModalOpen && <AIWriterModal .../>}`. */
    predicate ModalShown()
      reads this
    {
      isModalOpen
    }

    method HandlePersonalInfoChange(field: PersonalField, value: string)
      modifies this
      ensures state == Reduce(old(state), PersonalInfoAction(field, value))
      ensures isModalOpen == old(isModalOpen) && modalTarget == old(modalTarget) && aiIsLoading == old(aiIsLoading)
    {
      state := Reduce(state, PersonalInfoAction(field, value));
    }

    method HandleSummaryChange(value: string)
      modifies this
      ensures state == old(state).(summary := value)
      ensures isModalOpen == old(isModalOpen) && modalTarget == old(modalTarget) && aiIsLoading == old(aiIsLoading)
    {
      state := Reduce(state, UpdateSummary(value));
    }

    method HandleDynamicChange(kind: ListKind, id: string, field: Field, value: string)
      requires IsFieldOf(kind, field)
      modifies this
      ensures state == Dispatch(old(state), DynamicChangeAction(old(state), kind, id, field, value))
      ensures SameOutside(old(state), state, KindSection(kind))
      ensures !ListHasId(old(state), KindSection(kind), id) ==> state == old(state)
      ensures isModalOpen == old(isModalOpen) && modalTarget == old(modalTarget) && aiIsLoading == old(aiIsLoading)
    {
      state := Dispatch(state, DynamicChangeAction(state, kind, id, field, value));
    }

    /** `addDynamicItem`, with the result of `crypto.randomUUID()` passed in as `newId`. */
    method AddDynamicItem(kind: ListKind, newId: string)
      modifies this
      ensures state == Reduce(old(state), AddItemAction(kind, newId))
      ensures isModalOpen == old(isModalOpen) && modalTarget == old(modalTarget) && aiIsLoading == old(aiIsLoading)
    {
      state := Reduce(state, AddItemAction(kind, newId));
    }

    method DeleteDynamicItem(kind: ListKind, id: string)
      modifies this
      ensures state == Reduce(old(state), DeleteItemAction(kind, id))
      ensures isModalOpen == old(isModalOpen) && modalTarget == old(modalTarget) && aiIsLoading == old(aiIsLoading)
    {
      state := Reduce(state, DeleteItemAction(kind, id));
    }

    /** `openAIModal`: remember the target and open the modal. */
    method OpenAIModal(target: ModalTarget)
      modifies this
      ensures modalTarget == Some(target) && ModalShown()
      ensures state == old(state) && aiIsLoading == old(aiIsLoading)
    {
      modalTarget := Some(target);
      isModalOpen := true;
    }

    /**
     * The synchronous part of `handleGenerateAI`: without a target it
     * returns at once (`started` false) and changes nothing; otherwise it sets
     * `aiIsLoading` and the request goes out.
     */
    method BeginGenerateAI() returns (started: bool)
      modifies this
      ensures started <==> old(modalTarget).Some?
      ensures aiIsLoading == (started || old(aiIsLoading))
      ensures state == old(state) && isModalOpen == old(isModalOpen) && modalTarget == old(modalTarget)
    {
      if modalTarget.None? {
        return false;
      }
      aiIsLoading := true;
      return true;
    }

    /**
     * The request settles with `reply` (`None` when it throws): the result is
     * the reply or the apology, and the `finally` clears `aiIsLoading` on both
     * paths. (Without a target no request is made; see `BeginGenerateAI`.)
     */
    method FinishGenerateAI(reply: Option<string>) returns (text: string)
      requires modalTarget.Some?
      modifies this
      ensures reply.Some? ==> text == reply.value
      ensures reply.None? ==> text == GenerationFailure
      ensures !aiIsLoading
      ensures state == old(state) && isModalOpen == old(isModalOpen) && modalTarget == old(modalTarget)
    {
      text := if reply.None? then GenerationFailure else reply.value;
      aiIsLoading := false;
    }

    /** `handleUseAIText`: dispatch for the target, then close; without a target, do nothing at all. */
    method HandleUseAIText(text: string)
      modifies this
      ensures state == Dispatch(old(state), UseAITextAction(old(state), old(modalTarget), text))
      ensures old(modalTarget).Some? ==> !ModalShown()
      ensures old(modalTarget).None? ==> ModalShown() == old(ModalShown())
      ensures modalTarget == old(modalTarget) && aiIsLoading == old(aiIsLoading)
    {
      if modalTarget.None? {
        return;
      }
      state := Dispatch(state, UseAITextAction(state, modalTarget, text));
      isModalOpen := false;
    }

    /** The modal's `onClose`: `setIsModalOpen(false)`, the target kept. */
    method CloseModal()
      modifies this
      ensures !ModalShown()
      ensures state == old(state) && modalTarget == old(modalTarget) && aiIsLoading == old(aiIsLoading)
    {
      isModalOpen := false;
    }
  }
}
