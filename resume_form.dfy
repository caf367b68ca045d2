/**
  The résumé form as the editor pages hold it: one record per section entry
  and the whole form with its seven section lists. Every text field is a
  plain string; an unfilled field is the empty string.
 */
module ResumeForm {
  import opened Text

  datatype WorkExperienceForm = WorkExperienceForm(
    companyName: String,
    position: String,
    location: String,
    startDate: String,
    endDate: String,
    isCurrent: bool,
    description: String,
    achievements: seq<String>,
    technologies: seq<String>)

  datatype EducationForm = EducationForm(
    institutionName: String,
    degree: String,
    fieldOfStudy: String,
    location: String,
    startDate: String,
    endDate: String,
    isCurrent: bool,
    gpa: String,
    honors: seq<String>,
    relevantCoursework: seq<String>,
    description: String)

  datatype SkillForm = SkillForm(
    category: String,
    skillName: String,
    proficiencyLevel: String)

  datatype ProjectForm = ProjectForm(
    projectName: String,
    description: String,
    role: String,
    startDate: String,
    endDate: String,
    isOngoing: bool,
    technologies: seq<String>,
    projectUrl: String,
    githubUrl: String,
    highlights: seq<String>)

  datatype CertificationForm = CertificationForm(
    certificationName: String,
    issuingOrganization: String,
    issueDate: String,
    expiryDate: String,
    credentialId: String,
    credentialUrl: String,
    description: String)

  datatype AwardForm = AwardForm(
    awardName: String,
    issuingOrganization: String,
    dateReceived: String,
    description: String)

  datatype LanguageForm = LanguageForm(
    languageName: String,
    proficiencyLevel: String)

  datatype Form = Form(
    title: String,
    fullName: String,
    email: String,
    phone: String,
    location: String,
    website: String,
    linkedinUrl: String,
    githubUrl: String,
    professionalSummary: String,
    workExperiences: seq<WorkExperienceForm>,
    education: seq<EducationForm>,
    skills: seq<SkillForm>,
    projects: seq<ProjectForm>,
    certifications: seq<CertificationForm>,
    awards: seq<AwardForm>,
    languages: seq<LanguageForm>,
    isPublic: bool,
    templateName: String)

  /** The entry "Add Experience" appends: every text empty, not current, no list items. */
  const EmptyWorkExperience := WorkExperienceForm("", "", "", "", "", false, "", [], [])

  /** The entry "Add Education" appends. */
  const EmptyEducation := EducationForm("", "", "", "", "", "", false, "", [], [], "")

  /** The entries the add buttons append are blank: no text, not current, no list items. */
  lemma NewEntriesAreBlank()
    ensures var w := EmptyWorkExperience;
      && IsBlank(w.companyName) && IsBlank(w.position) && IsBlank(w.location) && IsBlank(w.startDate)
      && IsBlank(w.endDate) && IsBlank(w.description) && !w.isCurrent
      && w.achievements == [] && w.technologies == []
    ensures var e := EmptyEducation;
      && IsBlank(e.institutionName) && IsBlank(e.degree) && IsBlank(e.fieldOfStudy) && IsBlank(e.location)
      && IsBlank(e.startDate) && IsBlank(e.endDate) && IsBlank(e.gpa) && IsBlank(e.description) && !e.isCurrent
      && e.honors == [] && e.relevantCoursework == []
  {
  }

  /** The form the "new résumé" page starts from. */
  const InitialForm := Form("", "", "", "", "", "", "", "", "", [], [], [], [], [], [], [], false, "default")
}
