/**
  The state handlers of the "new résumé" page: `updateField`, and add,
  update and remove for the work-experience and education lists. Each
  handler computes the next form value from the current one.
 */
module FormEditing {
  import opened Text
  import opened Seqs
  import opened ResumeForm

  /** The keys of the form record (`keyof ResumeFormData`). */
  datatype Field =
    | Title | FullName | Email | Phone | Location | Website | LinkedinUrl | GithubUrl
    | ProfessionalSummary | WorkExperiences | Education | Skills | Projects
    | Certifications | Awards | Languages | IsPublic | TemplateName

  /** A value stored under one of the keys. */
  datatype FieldValue =
    | TextValue(text: String)
    | FlagValue(flag: bool)
    | WorkList(works: seq<WorkExperienceForm>)
    | EducationList(schools: seq<EducationForm>)
    | SkillList(skillEntries: seq<SkillForm>)
    | ProjectList(projectEntries: seq<ProjectForm>)
    | CertificationList(certificationEntries: seq<CertificationForm>)
    | AwardList(awardEntries: seq<AwardForm>)
    | LanguageList(languageEntries: seq<LanguageForm>)

  /** `form[field]`. */
  function Get(form: Form, f: Field): (v: FieldValue)
    ensures Fits(f, v)
  {
    match f
    case Title => TextValue(form.title)
    case FullName => TextValue(form.fullName)
    case Email => TextValue(form.email)
    case Phone => TextValue(form.phone)
    case Location => TextValue(form.location)
    case Website => TextValue(form.website)
    case LinkedinUrl => TextValue(form.linkedinUrl)
    case GithubUrl => TextValue(form.githubUrl)
    case ProfessionalSummary => TextValue(form.professionalSummary)
    case WorkExperiences => WorkList(form.workExperiences)
    case Education => EducationList(form.education)
    case Skills => SkillList(form.skills)
    case Projects => ProjectList(form.projects)
    case Certifications => CertificationList(form.certifications)
    case Awards => AwardList(form.awards)
    case Languages => LanguageList(form.languages)
    case IsPublic => FlagValue(form.isPublic)
    case TemplateName => TextValue(form.templateName)
  }

  /** `v` has the type the form declares for key `f`. */
  predicate Fits(f: Field, v: FieldValue) {
    match f
    case WorkExperiences => v.WorkList?
    case Education => v.EducationList?
    case Skills => v.SkillList?
    case Projects => v.ProjectList?
    case Certifications => v.CertificationList?
    case Awards => v.AwardList?
    case Languages => v.LanguageList?
    case IsPublic => v.FlagValue?
    case _ => v.TextValue?
  }

  /** `a` and `b` agree on every key other than `f`. */
  ghost predicate AgreeExcept(a: Form, b: Form, f: Field) {
    forall g :: g != f ==> Get(a, g) == Get(b, g)
  }

  /** Two forms that agree on every key are the same form. */
  lemma FieldsDetermineForm(a: Form, b: Form)
    requires forall g :: Get(a, g) == Get(b, g)
    ensures a == b
  {
    assert a.title == b.title by { assert Get(a, Title) == Get(b, Title); }
    assert a.fullName == b.fullName by { assert Get(a, FullName) == Get(b, FullName); }
    assert a.email == b.email by { assert Get(a, Email) == Get(b, Email); }
    assert a.phone == b.phone by { assert Get(a, Phone) == Get(b, Phone); }
    assert a.location == b.location by { assert Get(a, Location) == Get(b, Location); }
    assert a.website == b.website by { assert Get(a, Website) == Get(b, Website); }
    assert a.linkedinUrl == b.linkedinUrl by { assert Get(a, LinkedinUrl) == Get(b, LinkedinUrl); }
    assert a.githubUrl == b.githubUrl by { assert Get(a, GithubUrl) == Get(b, GithubUrl); }
    assert a.professionalSummary == b.professionalSummary by {
      assert Get(a, ProfessionalSummary) == Get(b, ProfessionalSummary);
    }
    assert a.workExperiences == b.workExperiences by {
      assert Get(a, WorkExperiences) == Get(b, WorkExperiences);
    }
    assert a.education == b.education by { assert Get(a, Education) == Get(b, Education); }
    assert a.skills == b.skills by { assert Get(a, Skills) == Get(b, Skills); }
    assert a.projects == b.projects by { assert Get(a, Projects) == Get(b, Projects); }
    assert a.certifications == b.certifications by {
      assert Get(a, Certifications) == Get(b, Certifications);
    }
    assert a.awards == b.awards by { assert Get(a, Awards) == Get(b, Awards); }
    assert a.languages == b.languages by { assert Get(a, Languages) == Get(b, Languages); }
    assert a.isPublic == b.isPublic by { assert Get(a, IsPublic) == Get(b, IsPublic); }
    assert a.templateName == b.templateName by { assert Get(a, TemplateName) == Get(b, TemplateName); }
  }

  /** `updateField(field, value)`: `{ ...formData, [field]: value }`. */
  function UpdateField(form: Form, f: Field, v: FieldValue): (r: Form)
    requires Fits(f, v)
    ensures Get(r, f) == v
    ensures AgreeExcept(r, form, f)
  {
    match f
    case Title => form.(title := v.text)
    case FullName => form.(fullName := v.text)
    case Email => form.(email := v.text)
    case Phone => form.(phone := v.text)
    case Location => form.(location := v.text)
    case Website => form.(website := v.text)
    case LinkedinUrl => form.(linkedinUrl := v.text)
    case GithubUrl => form.(githubUrl := v.text)
    case ProfessionalSummary => form.(professionalSummary := v.text)
    case WorkExperiences => form.(workExperiences := v.works)
    case Education => form.(education := v.schools)
    case Skills => form.(skills := v.skillEntries)
    case Projects => form.(projects := v.projectEntries)
    case Certifications => form.(certifications := v.certificationEntries)
    case Awards => form.(awards := v.awardEntries)
    case Languages => form.(languages := v.languageEntries)
    case IsPublic => form.(isPublic := v.flag)
    case TemplateName => form.(templateName := v.text)
  }

  /** What `updateField` produces is the only form that holds `v` under `f` and agrees elsewhere. */
  lemma UpdateFieldUnique(form: Form, f: Field, v: FieldValue, other: Form)
    requires Fits(f, v)
    requires Get(other, f) == v && AgreeExcept(other, form, f)
    ensures other == UpdateField(form, f, v)
  {
    var r := UpdateField(form, f, v);
    forall g ensures Get(other, g) == Get(r, g) {
      if g != f {
        assert Get(other, g) == Get(form, g) == Get(r, g);
      }
    }
    FieldsDetermineForm(other, r);
  }

  /** Writing back the value a key already holds changes nothing. */
  lemma UpdateFieldWithCurrentValue(form: Form, f: Field)
    ensures Fits(f, Get(form, f))
    ensures UpdateField(form, f, Get(form, f)) == form
  {
    assert Fits(f, Get(form, f));
    UpdateFieldUnique(form, f, Get(form, f), form);
  }

  /** `addWorkExperience`: one empty entry at the end, nothing else touched. */
  function AddWorkExperience(form: Form): (r: Form)
    ensures |r.workExperiences| == |form.workExperiences| + 1
    ensures r.workExperiences[..|form.workExperiences|] == form.workExperiences
    ensures r.workExperiences[|form.workExperiences|] == EmptyWorkExperience
    ensures AgreeExcept(r, form, WorkExperiences)
  {
    form.(workExperiences := form.workExperiences + [EmptyWorkExperience])
  }

  /** `updateWorkExperience(index, experience)`: entry `index` replaced, nothing else touched. */
  function UpdateWorkExperience(form: Form, index: int, experience: WorkExperienceForm): (r: Form)
    requires 0 <= index < |form.workExperiences|
    ensures |r.workExperiences| == |form.workExperiences|
    ensures r.workExperiences[index] == experience
    ensures forall j :: 0 <= j < |r.workExperiences| && j != index ==>
              r.workExperiences[j] == form.workExperiences[j]
    ensures AgreeExcept(r, form, WorkExperiences)
  {
    form.(workExperiences := form.workExperiences[index := experience])
  }

  /** `removeWorkExperience(index)`: entry `index` dropped if there is one, nothing else touched. */
  function RemoveWorkExperience(form: Form, index: int): (r: Form)
    ensures 0 <= index < |form.workExperiences| ==>
              r.workExperiences == form.workExperiences[..index] + form.workExperiences[index + 1..]
    ensures !(0 <= index < |form.workExperiences|) ==> r == form
    ensures AgreeExcept(r, form, WorkExperiences)
  {
    form.(workExperiences := RemoveAt(form.workExperiences, index))
  }

  /** `addEducation`: one empty entry at the end, nothing else touched. */
  function AddEducation(form: Form): (r: Form)
    ensures |r.education| == |form.education| + 1
    ensures r.education[..|form.education|] == form.education
    ensures r.education[|form.education|] == EmptyEducation
    ensures AgreeExcept(r, form, Education)
  {
    form.(education := form.education + [EmptyEducation])
  }

  /** `updateEducation(index, education)`: entry `index` replaced, nothing else touched. */
  function UpdateEducation(form: Form, index: int, entry: EducationForm): (r: Form)
    requires 0 <= index < |form.education|
    ensures |r.education| == |form.education|
    ensures r.education[index] == entry
    ensures forall j :: 0 <= j < |r.education| && j != index ==> r.education[j] == form.education[j]
    ensures AgreeExcept(r, form, Education)
  {
    form.(education := form.education[index := entry])
  }

  /** `removeEducation(index)`: entry `index` dropped if there is one, nothing else touched. */
  function RemoveEducation(form: Form, index: int): (r: Form)
    ensures 0 <= index < |form.education| ==>
              r.education == form.education[..index] + form.education[index + 1..]
    ensures !(0 <= index < |form.education|) ==> r == form
    ensures AgreeExcept(r, form, Education)
  {
    form.(education := RemoveAt(form.education, index))
  }

  /** Removing the entry that `addWorkExperience` just appended restores the form. */
  lemma RemoveUndoesAddWorkExperience(form: Form)
    ensures RemoveWorkExperience(AddWorkExperience(form), |form.workExperiences|) == form
  {
    RemoveLastAppended(form.workExperiences, EmptyWorkExperience);
  }

  /** Removing the entry that `addEducation` just appended restores the form. */
  lemma RemoveUndoesAddEducation(form: Form)
    ensures RemoveEducation(AddEducation(form), |form.education|) == form
  {
    RemoveLastAppended(form.education, EmptyEducation);
  }

  /** Each section handler is `updateField` on its own list. */
  lemma SectionHandlersAreFieldUpdates(form: Form, index: int, w: WorkExperienceForm, e: EducationForm)
    ensures AddWorkExperience(form) == UpdateField(form, WorkExperiences, WorkList(form.workExperiences + [EmptyWorkExperience]))
    ensures RemoveWorkExperience(form, index) == UpdateField(form, WorkExperiences, WorkList(RemoveAt(form.workExperiences, index)))
    ensures 0 <= index < |form.workExperiences| ==>
              UpdateWorkExperience(form, index, w) == UpdateField(form, WorkExperiences, WorkList(form.workExperiences[index := w]))
    ensures AddEducation(form) == UpdateField(form, Education, EducationList(form.education + [EmptyEducation]))
    ensures RemoveEducation(form, index) == UpdateField(form, Education, EducationList(RemoveAt(form.education, index)))
    ensures 0 <= index < |form.education| ==>
              UpdateEducation(form, index, e) == UpdateField(form, Education, EducationList(form.education[index := e]))
  {
  }

  /** The page starts with empty sections, private, on the default template. */
  lemma InitialFormIsEmpty()
    ensures forall f :: f != IsPublic && f != TemplateName && Get(InitialForm, f).TextValue? ==> Get(InitialForm, f).text == ""
    ensures Get(InitialForm, WorkExperiences) == WorkList([]) && Get(InitialForm, Education) == EducationList([])
    ensures Get(InitialForm, Skills) == SkillList([]) && Get(InitialForm, Projects) == ProjectList([])
    ensures Get(InitialForm, Certifications) == CertificationList([]) && Get(InitialForm, Awards) == AwardList([])
    ensures Get(InitialForm, Languages) == LanguageList([])
    ensures Get(InitialForm, IsPublic) == FlagValue(false) && Get(InitialForm, TemplateName) == TextValue("default")
  {
  }
}
