/**
  The rows the server actions insert for a résumé: the main record and one
  row per entry of each section list, built by the `map`/`filter`
  expressions of `createResumeAction` and `updateResumeAction`. The
  database calls around them are not modelled; the resume id the database
  assigns on create is a parameter.
 */
module RowBuilding {
  import opened Text
  import opened Seqs
  import opened ResumeForm
  import opened Wrappers
  import ArrayInput

  /** `s || null`: the empty string is stored as NULL, anything else as it is. */
  function OrNull(s: String): (r: Option<String>)
    ensures r == None <==> s == []
    ensures r.Some? ==> r.value == s
  {
    if s == [] then None else Some(s)
  }

  /** `v || ""`: how the edit page reads a nullable column back into the form. */
  function OrEmpty(v: Option<String>): (r: String)
    ensures v.Some? ==> r == v.value
    ensures v == None ==> r == []
  {
    match v
    case None => []
    case Some(s) => s
  }

  /** Reading back what `|| null` stored returns the original string, and storing it again gives the same column. */
  lemma OrNullRoundTrip(s: String, v: Option<String>)
    ensures OrEmpty(OrNull(s)) == s
    ensures v != Some([]) ==> OrNull(OrEmpty(v)) == v
  {
  }

  /** `closed ? null : endDate || null`, with `closed` the entry's is_current or is_ongoing flag. */
  function EndDateColumn(closed: bool, endDate: String): (r: Option<String>)
    ensures r == None <==> closed || endDate == []
    ensures r.Some? ==> r.value == endDate
  {
    if closed then None else OrNull(endDate)
  }

  /** The test of `xs.filter(x => x.trim() !== '')`. */
  function NotBlank(): String -> bool {
    s => !IsBlank(s)
  }

  /** `xs.filter(x => x.trim() !== '')`: the non-blank entries, unchanged and in order. */
  function KeepNonBlank(xs: seq<String>): (r: seq<String>)
    ensures |r| <= |xs|
    ensures forall k :: 0 <= k < |r| ==> r[k] in xs && !IsBlank(r[k])
    ensures forall k :: 0 <= k < |xs| && !IsBlank(xs[k]) ==> xs[k] in r
  {
    Filter(xs, NotBlank())
  }

  /** The filter keeps the original order: it works piecewise on any split of the list. */
  lemma KeepNonBlankKeepsOrder(a: seq<String>, b: seq<String>)
    ensures KeepNonBlank(a + b) == KeepNonBlank(a) + KeepNonBlank(b)
  {
    FilterAppend(a, b, NotBlank());
  }

  /** Filtering a filtered list changes nothing. */
  lemma KeepNonBlankIdempotent(xs: seq<String>)
    ensures KeepNonBlank(KeepNonBlank(xs)) == KeepNonBlank(xs)
  {
    FilterIdempotent(xs, NotBlank());
  }

  /** Lists filled through the tag-list input never lose an entry to the filter. */
  lemma InputListsSurviveFilter(values: seq<String>)
    requires ArrayInput.AllClean(values)
    ensures KeepNonBlank(values) == values
  {
    forall k | 0 <= k < |values| ensures NotBlank()(values[k]) {
      assert ArrayInput.IsCleanValue(values[k]);
      TrimOfTrimmed(values[k]);
    }
    FilterAllPass(values, NotBlank());
  }

  // ---- Rows ----

  /** The main `resumes` record (without user id and timestamps). */
  datatype ResumeRecord = ResumeRecord(
    title: String, fullName: String, email: String,
    phone: Option<String>, location: Option<String>, website: Option<String>,
    linkedinUrl: Option<String>, githubUrl: Option<String>, professionalSummary: Option<String>,
    isPublic: bool, templateName: String)

  datatype WorkExperienceRow = WorkExperienceRow(
    resumeId: String, companyName: String, position: String, location: Option<String>,
    startDate: String, endDate: Option<String>, isCurrent: bool, description: Option<String>,
    achievements: seq<String>, technologies: seq<String>, displayOrder: int)

  datatype EducationRow = EducationRow(
    resumeId: String, institutionName: String, degree: String, fieldOfStudy: Option<String>,
    location: Option<String>, startDate: Option<String>, endDate: Option<String>, isCurrent: bool,
    gpa: Option<String>, honors: seq<String>, relevantCoursework: seq<String>,
    description: Option<String>, displayOrder: int)

  datatype SkillRow = SkillRow(
    resumeId: String, category: String, skillName: String, proficiencyLevel: Option<String>,
    displayOrder: int)

  datatype ProjectRow = ProjectRow(
    resumeId: String, projectName: String, description: String, role: Option<String>,
    startDate: Option<String>, endDate: Option<String>, isOngoing: bool, technologies: seq<String>,
    projectUrl: Option<String>, githubUrl: Option<String>, highlights: seq<String>, displayOrder: int)

  datatype CertificationRow = CertificationRow(
    resumeId: String, certificationName: String, issuingOrganization: String,
    issueDate: Option<String>, expiryDate: Option<String>, credentialId: Option<String>,
    credentialUrl: Option<String>, description: Option<String>, displayOrder: int)

  datatype AwardRow = AwardRow(
    resumeId: String, awardName: String, issuingOrganization: String,
    dateReceived: Option<String>, description: Option<String>, displayOrder: int)

  datatype LanguageRow = LanguageRow(
    resumeId: String, languageName: String, proficiencyLevel: String, displayOrder: int)

  /** The main record: required text copied, optional text through `|| null`. */
  function ResumeRecordOf(form: Form): (r: ResumeRecord)
    ensures r.title == form.title && r.fullName == form.fullName && r.email == form.email
    ensures r.phone == OrNull(form.phone) && r.location == OrNull(form.location)
    ensures r.website == OrNull(form.website) && r.linkedinUrl == OrNull(form.linkedinUrl)
    ensures r.githubUrl == OrNull(form.githubUrl) && r.professionalSummary == OrNull(form.professionalSummary)
    ensures r.isPublic == form.isPublic && r.templateName == form.templateName
  {
    ResumeRecord(
      form.title, form.fullName, form.email,
      OrNull(form.phone), OrNull(form.location), OrNull(form.website),
      OrNull(form.linkedinUrl), OrNull(form.githubUrl), OrNull(form.professionalSummary),
      form.isPublic, form.templateName)
  }

  /** Work experiences: one row per entry, in order, owned by `resumeId`; start date kept even when empty. */
  function WorkExperienceRows(resumeId: String, exps: seq<WorkExperienceForm>): (rows: seq<WorkExperienceRow>)
    ensures |rows| == |exps|
    ensures forall i :: 0 <= i < |rows| ==> rows[i].displayOrder == i && rows[i].resumeId == resumeId
    ensures forall i :: 0 <= i < |rows| ==>
      && rows[i].companyName == exps[i].companyName && rows[i].position == exps[i].position
      && rows[i].startDate == exps[i].startDate && rows[i].isCurrent == exps[i].isCurrent
      && rows[i].location == OrNull(exps[i].location) && rows[i].description == OrNull(exps[i].description)
      && (rows[i].endDate == None <==> exps[i].isCurrent || exps[i].endDate == [])
      && (rows[i].endDate.Some? ==> rows[i].endDate.value == exps[i].endDate)
      && rows[i].achievements == KeepNonBlank(exps[i].achievements)
      && rows[i].technologies == KeepNonBlank(exps[i].technologies)
  {
    seq(|exps|, i requires 0 <= i < |exps| =>
      var e := exps[i];
      WorkExperienceRow(
        resumeId, e.companyName, e.position, OrNull(e.location), e.startDate,
        EndDateColumn(e.isCurrent, e.endDate), e.isCurrent, OrNull(e.description),
        KeepNonBlank(e.achievements), KeepNonBlank(e.technologies), i))
  }

  /** Education: one row per entry, in order, owned by `resumeId`; an empty start date becomes NULL. */
  function EducationRows(resumeId: String, edus: seq<EducationForm>): (rows: seq<EducationRow>)
    ensures |rows| == |edus|
    ensures forall i :: 0 <= i < |rows| ==> rows[i].displayOrder == i && rows[i].resumeId == resumeId
    ensures forall i :: 0 <= i < |rows| ==>
      && rows[i].institutionName == edus[i].institutionName && rows[i].degree == edus[i].degree
      && rows[i].isCurrent == edus[i].isCurrent
      && rows[i].fieldOfStudy == OrNull(edus[i].fieldOfStudy) && rows[i].location == OrNull(edus[i].location)
      && rows[i].startDate == OrNull(edus[i].startDate) && rows[i].gpa == OrNull(edus[i].gpa)
      && rows[i].description == OrNull(edus[i].description)
      && (rows[i].endDate == None <==> edus[i].isCurrent || edus[i].endDate == [])
      && (rows[i].endDate.Some? ==> rows[i].endDate.value == edus[i].endDate)
      && rows[i].honors == KeepNonBlank(edus[i].honors)
      && rows[i].relevantCoursework == KeepNonBlank(edus[i].relevantCoursework)
  {
    seq(|edus|, i requires 0 <= i < |edus| =>
      var e := edus[i];
      EducationRow(
        resumeId, e.institutionName, e.degree, OrNull(e.fieldOfStudy), OrNull(e.location),
        OrNull(e.startDate), EndDateColumn(e.isCurrent, e.endDate), e.isCurrent, OrNull(e.gpa),
        KeepNonBlank(e.honors), KeepNonBlank(e.relevantCoursework), OrNull(e.description), i))
  }

  /** Skills: one row per entry, in order, owned by `resumeId`; only the proficiency level may become NULL. */
  function SkillRows(resumeId: String, skills: seq<SkillForm>): (rows: seq<SkillRow>)
    ensures |rows| == |skills|
    ensures forall i :: 0 <= i < |rows| ==> rows[i].displayOrder == i && rows[i].resumeId == resumeId
    ensures forall i :: 0 <= i < |rows| ==>
      && rows[i].category == skills[i].category && rows[i].skillName == skills[i].skillName
      && rows[i].proficiencyLevel == OrNull(skills[i].proficiencyLevel)
  {
    seq(|skills|, i requires 0 <= i < |skills| =>
      SkillRow(resumeId, skills[i].category, skills[i].skillName, OrNull(skills[i].proficiencyLevel), i))
  }

  /** Projects: one row per entry, in order, owned by `resumeId`; the description is required and copied. */
  function ProjectRows(resumeId: String, projects: seq<ProjectForm>): (rows: seq<ProjectRow>)
    ensures |rows| == |projects|
    ensures forall i :: 0 <= i < |rows| ==> rows[i].displayOrder == i && rows[i].resumeId == resumeId
    ensures forall i :: 0 <= i < |rows| ==>
      && rows[i].projectName == projects[i].projectName && rows[i].description == projects[i].description
      && rows[i].isOngoing == projects[i].isOngoing
      && rows[i].role == OrNull(projects[i].role) && rows[i].startDate == OrNull(projects[i].startDate)
      && rows[i].projectUrl == OrNull(projects[i].projectUrl) && rows[i].githubUrl == OrNull(projects[i].githubUrl)
      && (rows[i].endDate == None <==> projects[i].isOngoing || projects[i].endDate == [])
      && (rows[i].endDate.Some? ==> rows[i].endDate.value == projects[i].endDate)
      && rows[i].technologies == KeepNonBlank(projects[i].technologies)
      && rows[i].highlights == KeepNonBlank(projects[i].highlights)
  {
    seq(|projects|, i requires 0 <= i < |projects| =>
      var p := projects[i];
      ProjectRow(
        resumeId, p.projectName, p.description, OrNull(p.role), OrNull(p.startDate),
        EndDateColumn(p.isOngoing, p.endDate), p.isOngoing, KeepNonBlank(p.technologies),
        OrNull(p.projectUrl), OrNull(p.githubUrl), KeepNonBlank(p.highlights), i))
  }

  /** Certifications: one row per entry, in order, owned by `resumeId`. */
  function CertificationRows(resumeId: String, certs: seq<CertificationForm>): (rows: seq<CertificationRow>)
    ensures |rows| == |certs|
    ensures forall i :: 0 <= i < |rows| ==> rows[i].displayOrder == i && rows[i].resumeId == resumeId
    ensures forall i :: 0 <= i < |rows| ==>
      && rows[i].certificationName == certs[i].certificationName
      && rows[i].issuingOrganization == certs[i].issuingOrganization
      && rows[i].issueDate == OrNull(certs[i].issueDate) && rows[i].expiryDate == OrNull(certs[i].expiryDate)
      && rows[i].credentialId == OrNull(certs[i].credentialId)
      && rows[i].credentialUrl == OrNull(certs[i].credentialUrl)
      && rows[i].description == OrNull(certs[i].description)
  {
    seq(|certs|, i requires 0 <= i < |certs| =>
      var c := certs[i];
      CertificationRow(
        resumeId, c.certificationName, c.issuingOrganization, OrNull(c.issueDate), OrNull(c.expiryDate),
        OrNull(c.credentialId), OrNull(c.credentialUrl), OrNull(c.description), i))
  }

  /** Awards: one row per entry, in order, owned by `resumeId`. */
  function AwardRows(resumeId: String, awards: seq<AwardForm>): (rows: seq<AwardRow>)
    ensures |rows| == |awards|
    ensures forall i :: 0 <= i < |rows| ==> rows[i].displayOrder == i && rows[i].resumeId == resumeId
    ensures forall i :: 0 <= i < |rows| ==>
      && rows[i].awardName == awards[i].awardName
      && rows[i].issuingOrganization == awards[i].issuingOrganization
      && rows[i].dateReceived == OrNull(awards[i].dateReceived)
      && rows[i].description == OrNull(awards[i].description)
  {
    seq(|awards|, i requires 0 <= i < |awards| =>
      AwardRow(resumeId, awards[i].awardName, awards[i].issuingOrganization,
        OrNull(awards[i].dateReceived), OrNull(awards[i].description), i))
  }

  /** Languages: one row per entry, in order, owned by `resumeId`; nothing is ever NULL. */
  function LanguageRows(resumeId: String, langs: seq<LanguageForm>): (rows: seq<LanguageRow>)
    ensures |rows| == |langs|
    ensures forall i :: 0 <= i < |rows| ==> rows[i].displayOrder == i && rows[i].resumeId == resumeId
    ensures forall i :: 0 <= i < |rows| ==>
      rows[i].languageName == langs[i].languageName && rows[i].proficiencyLevel == langs[i].proficiencyLevel
  {
    seq(|langs|, i requires 0 <= i < |langs| =>
      LanguageRow(resumeId, langs[i].languageName, langs[i].proficiencyLevel, i))
  }

  // ---- The inserts of one save ----

  /** One `insert` call on a child table. */
  datatype Insert =
    | WorkExperienceInsert(workRows: seq<WorkExperienceRow>)
    | EducationInsert(educationRows: seq<EducationRow>)
    | SkillInsert(skillRows: seq<SkillRow>)
    | ProjectInsert(projectRows: seq<ProjectRow>)
    | CertificationInsert(certificationRows: seq<CertificationRow>)
    | AwardInsert(awardRows: seq<AwardRow>)
    | LanguageInsert(languageRows: seq<LanguageRow>)

  /** The child tables, in the order the actions write them. */
  datatype Table =
    | WorkExperiencesTable | EducationTable | SkillsTable | ProjectsTable
    | CertificationsTable | AwardsTable | LanguagesTable

  function Rank(t: Table): nat {
    match t
    case WorkExperiencesTable => 0
    case EducationTable => 1
    case SkillsTable => 2
    case ProjectsTable => 3
    case CertificationsTable => 4
    case AwardsTable => 5
    case LanguagesTable => 6
  }

  /** The table an insert writes to. */
  function TableOf(ins: Insert): Table {
    match ins
    case WorkExperienceInsert(_) => WorkExperiencesTable
    case EducationInsert(_) => EducationTable
    case SkillInsert(_) => SkillsTable
    case ProjectInsert(_) => ProjectsTable
    case CertificationInsert(_) => CertificationsTable
    case AwardInsert(_) => AwardsTable
    case LanguageInsert(_) => LanguagesTable
  }

  /** The number of rows an insert writes. */
  function RowCount(ins: Insert): nat {
    match ins
    case WorkExperienceInsert(rows) => |rows|
    case EducationInsert(rows) => |rows|
    case SkillInsert(rows) => |rows|
    case ProjectInsert(rows) => |rows|
    case CertificationInsert(rows) => |rows|
    case AwardInsert(rows) => |rows|
    case LanguageInsert(rows) => |rows|
  }

  /** Every row an insert writes belongs to résumé `id`. */
  predicate OwnedBy(ins: Insert, id: String) {
    match ins
    case WorkExperienceInsert(rows) => forall k :: 0 <= k < |rows| ==> rows[k].resumeId == id
    case EducationInsert(rows) => forall k :: 0 <= k < |rows| ==> rows[k].resumeId == id
    case SkillInsert(rows) => forall k :: 0 <= k < |rows| ==> rows[k].resumeId == id
    case ProjectInsert(rows) => forall k :: 0 <= k < |rows| ==> rows[k].resumeId == id
    case CertificationInsert(rows) => forall k :: 0 <= k < |rows| ==> rows[k].resumeId == id
    case AwardInsert(rows) => forall k :: 0 <= k < |rows| ==> rows[k].resumeId == id
    case LanguageInsert(rows) => forall k :: 0 <= k < |rows| ==> rows[k].resumeId == id
  }

  /** The rows written by a sequence of inserts. */
  function TotalRows(inserts: seq<Insert>): nat {
    if inserts == [] then 0 else RowCount(inserts[0]) + TotalRows(inserts[1..])
  }

  lemma {:induction false} TotalRowsAppend(a: seq<Insert>, b: seq<Insert>)
    ensures TotalRows(a + b) == TotalRows(a) + TotalRows(b)
  {
    if a == [] {
      assert a + b == b;
    } else {
      assert (a + b)[1..] == a[1..] + b;
      TotalRowsAppend(a[1..], b);
    }
  }

  /** The inserts are in table order, each table at most once. */
  predicate InTableOrder(inserts: seq<Insert>) {
    forall j, k :: 0 <= j < k < |inserts| ==> Rank(TableOf(inserts[j])) < Rank(TableOf(inserts[k]))
  }

  /** `if (list.length > 0) insert(rows)` after the inserts already issued: a section without entries issues none. */
  function AppendIfAny(id: String, issued: seq<Insert>, ins: Insert): (r: seq<Insert>)
    requires InTableOrder(issued) && OwnedBy(ins, id)
    requires forall k :: 0 <= k < |issued| ==> Rank(TableOf(issued[k])) < Rank(TableOf(ins))
    requires forall k :: 0 <= k < |issued| ==> RowCount(issued[k]) > 0 && OwnedBy(issued[k], id)
    ensures InTableOrder(r)
    ensures forall k :: 0 <= k < |r| ==> Rank(TableOf(r[k])) <= Rank(TableOf(ins))
    ensures forall k :: 0 <= k < |r| ==> RowCount(r[k]) > 0 && OwnedBy(r[k], id)
    ensures TotalRows(r) == TotalRows(issued) + RowCount(ins)
    ensures |issued| <= |r| && r[..|issued|] == issued
    ensures |r| == |issued| + 1 <==> RowCount(ins) > 0
    ensures |r| <= |issued| + 1
    ensures |r| == |issued| + 1 ==> r[|issued|] == ins
  {
    if RowCount(ins) > 0 then
      TotalRowsAppend(issued, [ins]);
      issued + [ins]
    else
      issued
  }

  /** The number of entries the form holds for table `t`. */
  function SectionSize(form: Form, t: Table): nat {
    match t
    case WorkExperiencesTable => |form.workExperiences|
    case EducationTable => |form.education|
    case SkillsTable => |form.skills|
    case ProjectsTable => |form.projects|
    case CertificationsTable => |form.certifications|
    case AwardsTable => |form.awards|
    case LanguagesTable => |form.languages|
  }

  /** The insert a save prepares for table `t`: that section's rows, all owned by `resumeId`. */
  function SectionInsert(resumeId: String, form: Form, t: Table): (ins: Insert)
    ensures TableOf(ins) == t
    ensures RowCount(ins) == SectionSize(form, t)
    ensures OwnedBy(ins, resumeId)
  {
    match t
    case WorkExperiencesTable => WorkExperienceInsert(WorkExperienceRows(resumeId, form.workExperiences))
    case EducationTable => EducationInsert(EducationRows(resumeId, form.education))
    case SkillsTable => SkillInsert(SkillRows(resumeId, form.skills))
    case ProjectsTable => ProjectInsert(ProjectRows(resumeId, form.projects))
    case CertificationsTable => CertificationInsert(CertificationRows(resumeId, form.certifications))
    case AwardsTable => AwardInsert(AwardRows(resumeId, form.awards))
    case LanguagesTable => LanguageInsert(LanguageRows(resumeId, form.languages))
  }

  /** Every insert is its table's section insert, for a table ranked below `n`. */
  predicate SectionInsertsBelow(resumeId: String, form: Form, inserts: seq<Insert>, n: nat) {
    forall k :: 0 <= k < |inserts| ==>
      inserts[k] == SectionInsert(resumeId, form, TableOf(inserts[k])) && Rank(TableOf(inserts[k])) < n
  }

  /** A table ranked below `n` has an insert exactly when its section has entries. */
  predicate CoversSectionsBelow(form: Form, inserts: seq<Insert>, n: nat) {
    forall t: Table :: Rank(t) < n ==>
      (SectionSize(form, t) > 0 <==> exists k :: 0 <= k < |inserts| && TableOf(inserts[k]) == t)
  }

  /**
    `inserts` are exactly the inserts of the form's non-empty sections among
    the tables ranked below `n`.
   */
  predicate InsertsOfSections(resumeId: String, form: Form, inserts: seq<Insert>, n: nat) {
    SectionInsertsBelow(resumeId, form, inserts, n) && CoversSectionsBelow(form, inserts, n)
  }

  /** Two tables of the same rank are the same table. */
  lemma RankInjective(s: Table, t: Table)
    requires Rank(s) == Rank(t)
    ensures s == t
  {
  }

  /** Every table is one of the seven ranked ones. */
  lemma RankBelowSeven(t: Table)
    ensures Rank(t) < 7
  {
  }

  /** Appending table `t`'s insert keeps every insert its table's section insert. */
  lemma AppendKeepsSectionInserts(resumeId: String, form: Form, issued: seq<Insert>, t: Table)
    requires InTableOrder(issued)
    requires forall k :: 0 <= k < |issued| ==> Rank(TableOf(issued[k])) < Rank(TableOf(SectionInsert(resumeId, form, t)))
    requires forall k :: 0 <= k < |issued| ==> RowCount(issued[k]) > 0 && OwnedBy(issued[k], resumeId)
    requires SectionInsertsBelow(resumeId, form, issued, Rank(t))
    ensures SectionInsertsBelow(resumeId, form, AppendIfAny(resumeId, issued, SectionInsert(resumeId, form, t)), Rank(t) + 1)
  {
    var r := AppendIfAny(resumeId, issued, SectionInsert(resumeId, form, t));
    forall k | 0 <= k < |r|
      ensures r[k] == SectionInsert(resumeId, form, TableOf(r[k])) && Rank(TableOf(r[k])) < Rank(t) + 1
    {
      if k < |issued| {
        assert r[k] == r[..|issued|][k];
      }
    }
  }

  /** Appending table `t`'s insert when its section has entries covers one more table. */
  lemma AppendCoversSection(resumeId: String, form: Form, issued: seq<Insert>, t: Table)
    requires InTableOrder(issued)
    requires forall k :: 0 <= k < |issued| ==> Rank(TableOf(issued[k])) < Rank(TableOf(SectionInsert(resumeId, form, t)))
    requires forall k :: 0 <= k < |issued| ==> RowCount(issued[k]) > 0 && OwnedBy(issued[k], resumeId)
    requires CoversSectionsBelow(form, issued, Rank(t))
    ensures CoversSectionsBelow(form, AppendIfAny(resumeId, issued, SectionInsert(resumeId, form, t)), Rank(t) + 1)
  {
    ExtendCovers(form, issued, AppendIfAny(resumeId, issued, SectionInsert(resumeId, form, t)), t);
  }

  /** Extending the inserts by table `t`'s insert, exactly when its section has entries, covers table `t` too. */
  lemma ExtendCovers(form: Form, issued: seq<Insert>, r: seq<Insert>, t: Table)
    requires |issued| <= |r| <= |issued| + 1 && r[..|issued|] == issued
    requires |r| == |issued| + 1 <==> SectionSize(form, t) > 0
    requires |r| == |issued| + 1 ==> TableOf(r[|issued|]) == t
    requires forall k :: 0 <= k < |issued| ==> Rank(TableOf(issued[k])) < Rank(t)
    requires CoversSectionsBelow(form, issued, Rank(t))
    ensures CoversSectionsBelow(form, r, Rank(t) + 1)
  {
    forall u: Table | Rank(u) < Rank(t) + 1
      ensures SectionSize(form, u) > 0 <==> exists k :: 0 <= k < |r| && TableOf(r[k]) == u
    {
      if Rank(u) < Rank(t) {
        if SectionSize(form, u) > 0 {
          var k :| 0 <= k < |issued| && TableOf(issued[k]) == u;
          assert r[k] == r[..|issued|][k];
        }
        if exists k :: 0 <= k < |r| && TableOf(r[k]) == u {
          var k :| 0 <= k < |r| && TableOf(r[k]) == u;
          assert r[k] == r[..|issued|][k];
        }
      } else {
        RankInjective(u, t);
        if SectionSize(form, u) > 0 {
          assert TableOf(r[|issued|]) == u;
        }
      }
    }
  }

  /** The table of rank `n`. */
  function TableAt(n: nat): (t: Table)
    requires n < 7
    ensures Rank(t) == n
  {
    if n == 0 then WorkExperiencesTable
    else if n == 1 then EducationTable
    else if n == 2 then SkillsTable
    else if n == 3 then ProjectsTable
    else if n == 4 then CertificationsTable
    else if n == 5 then AwardsTable
    else LanguagesTable
  }

  /** The number of form entries in the tables ranked below `n`. */
  function EntriesBelow(form: Form, n: nat): nat
    requires n <= 7
  {
    if n == 0 then 0 else EntriesBelow(form, n - 1) + SectionSize(form, TableAt(n - 1))
  }

  /** The inserts issued for the tables ranked below `n`, each one only when its section has entries. */
  function InsertsBelow(resumeId: String, form: Form, n: nat): (r: seq<Insert>)
    requires n <= 7
    ensures forall k :: 0 <= k < |r| ==> RowCount(r[k]) > 0 && OwnedBy(r[k], resumeId)
    ensures InTableOrder(r)
    ensures InsertsOfSections(resumeId, form, r, n)
    ensures TotalRows(r) == EntriesBelow(form, n)
  {
    if n == 0 then []
    else
      var issued := InsertsBelow(resumeId, form, n - 1);
      var t := TableAt(n - 1);
      AppendKeepsSectionInserts(resumeId, form, issued, t);
      AppendCoversSection(resumeId, form, issued, t);
      AppendIfAny(resumeId, issued, SectionInsert(resumeId, form, t))
  }

  /**
    The child inserts of one save, in the order the actions issue them: one
    insert for each section with entries, holding exactly that section's rows,
    and none for an empty section.
   */
  function ChildInserts(resumeId: String, form: Form): (r: seq<Insert>)
    ensures forall k :: 0 <= k < |r| ==> RowCount(r[k]) > 0 && OwnedBy(r[k], resumeId)
    ensures InTableOrder(r)
    ensures forall k :: 0 <= k < |r| ==> r[k] == SectionInsert(resumeId, form, TableOf(r[k]))
    ensures forall t: Table :: SectionSize(form, t) > 0 <==> exists k :: 0 <= k < |r| && TableOf(r[k]) == t
    ensures TotalRows(r) == |form.workExperiences| + |form.education| + |form.skills| + |form.projects|
                            + |form.certifications| + |form.awards| + |form.languages|
  {
    EntriesOfAllTables(form);
    InsertsOfAllSections(resumeId, form);
    InsertsBelow(resumeId, form, 7)
  }

  /** The seven tables together hold every entry of the form. */
  lemma EntriesOfAllTables(form: Form)
    ensures EntriesBelow(form, 7) == |form.workExperiences| + |form.education| + |form.skills| + |form.projects|
                                   + |form.certifications| + |form.awards| + |form.languages|
  {
    assert EntriesBelow(form, 1) == |form.workExperiences|;
    assert EntriesBelow(form, 3) == EntriesBelow(form, 1) + |form.education| + |form.skills|;
    assert EntriesBelow(form, 5) == EntriesBelow(form, 3) + |form.projects| + |form.certifications|;
  }

  /** Over all seven tables, the inserts are exactly the section inserts of the non-empty sections. */
  lemma InsertsOfAllSections(resumeId: String, form: Form)
    ensures var r := InsertsBelow(resumeId, form, 7);
      && (forall k :: 0 <= k < |r| ==> r[k] == SectionInsert(resumeId, form, TableOf(r[k])))
      && (forall t: Table :: SectionSize(form, t) > 0 <==> exists k :: 0 <= k < |r| && TableOf(r[k]) == t)
  {
    var r := InsertsBelow(resumeId, form, 7);
    assert CoversSectionsBelow(form, r, 7);
    forall t: Table ensures SectionSize(form, t) > 0 <==> exists k :: 0 <= k < |r| && TableOf(r[k]) == t {
      RankBelowSeven(t);
      assert Rank(t) < 7 ==> (SectionSize(form, t) > 0 <==> exists k :: 0 <= k < |r| && TableOf(r[k]) == t);
    }
  }

  const AllTables: set<Table> :=
    {WorkExperiencesTable, EducationTable, SkillsTable, ProjectsTable, CertificationsTable, AwardsTable, LanguagesTable}

  lemma AllTablesComplete(t: Table)
    ensures t in AllTables
  {
    match t
    case WorkExperiencesTable =>
    case EducationTable =>
    case SkillsTable =>
    case ProjectsTable =>
    case CertificationsTable =>
    case AwardsTable =>
    case LanguagesTable =>
  }

  /** What `createResumeAction` writes once the database has given the new résumé its id. */
  datatype CreateWrites = CreateWrites(userId: String, resume: ResumeRecord, resumeId: String, children: seq<Insert>)

  /** What `updateResumeAction` writes: the record, a delete on every child table, then the inserts. */
  datatype UpdateWrites = UpdateWrites(resumeId: String, resume: ResumeRecord, clearedTables: set<Table>, children: seq<Insert>)

  function CreateResume(userId: String, newResumeId: String, form: Form): (r: CreateWrites)
    ensures r.userId == userId && r.resumeId == newResumeId
    ensures r.resume == ResumeRecordOf(form)
    ensures r.children == ChildInserts(newResumeId, form)
    ensures forall k :: 0 <= k < |r.children| ==> OwnedBy(r.children[k], newResumeId)
  {
    CreateWrites(userId, ResumeRecordOf(form), newResumeId, ChildInserts(newResumeId, form))
  }

  function UpdateResume(resumeId: String, form: Form): (r: UpdateWrites)
    ensures r.resumeId == resumeId
    ensures r.resume == ResumeRecordOf(form)
    ensures forall t: Table :: t in r.clearedTables
    ensures r.children == ChildInserts(resumeId, form)
    ensures forall k :: 0 <= k < |r.children| ==> OwnedBy(r.children[k], resumeId)
  {
    assert forall t: Table :: t in AllTables by {
      forall t: Table ensures t in AllTables {
        AllTablesComplete(t);
      }
    }
    UpdateWrites(resumeId, ResumeRecordOf(form), AllTables, ChildInserts(resumeId, form))
  }

  /**
    Saving an edit writes the same record and the same child rows as creating
    the résumé under that id. Both actions build each section with the same
    `map` expression, differing only in where the résumé id comes from
    (app/resumes/actions.ts lines 49-61 and 376-388, 75-89 and 395-409,
    102-108 and 416-422, 121-134 and 429-442, 147-157 and 449-459, 170-177
    and 466-473, 190-195 and 480-485), so the model builds both through the
    same functions and the lemma rests on that.
   */
  lemma UpdateMatchesCreate(userId: String, resumeId: String, form: Form)
    ensures UpdateResume(resumeId, form).resume == CreateResume(userId, resumeId, form).resume
    ensures UpdateResume(resumeId, form).children == CreateResume(userId, resumeId, form).children
  {
  }

  // ---- Loading rows back into the form (edit page) and saving again ----

  /** A nullable text column as `|| null` leaves it: NULL or a non-empty string. */
  predicate StoredText(v: Option<String>) {
    v != Some([])
  }

  /** A list column as the blank-item filter leaves it. */
  predicate NoBlankItems(xs: seq<String>) {
    forall k :: 0 <= k < |xs| ==> !IsBlank(xs[k])
  }

  /** A list without blank items passes the filter unchanged. */
  lemma KeepNonBlankOfFiltered(xs: seq<String>)
    ensures NoBlankItems(xs) ==> KeepNonBlank(xs) == xs
  {
    if NoBlankItems(xs) {
      assert forall k :: 0 <= k < |xs| ==> NotBlank()(xs[k]);
      FilterAllPass(xs, NotBlank());
    }
  }

  /** A work-experience row as the actions write it. */
  predicate StoredWorkExperience(row: WorkExperienceRow) {
    && StoredText(row.location) && StoredText(row.endDate) && StoredText(row.description)
    && (row.isCurrent ==> row.endDate == None)
    && NoBlankItems(row.achievements) && NoBlankItems(row.technologies)
  }

  /** An education row as the actions write it. */
  predicate StoredEducation(row: EducationRow) {
    && StoredText(row.fieldOfStudy) && StoredText(row.location) && StoredText(row.startDate)
    && StoredText(row.endDate) && StoredText(row.gpa) && StoredText(row.description)
    && (row.isCurrent ==> row.endDate == None)
    && NoBlankItems(row.honors) && NoBlankItems(row.relevantCoursework)
  }

  /** A project row as the actions write it. */
  predicate StoredProject(row: ProjectRow) {
    && StoredText(row.role) && StoredText(row.startDate) && StoredText(row.endDate)
    && StoredText(row.projectUrl) && StoredText(row.githubUrl)
    && (row.isOngoing ==> row.endDate == None)
    && NoBlankItems(row.technologies) && NoBlankItems(row.highlights)
  }

  /** Every row the builders write is in stored form. */
  lemma BuiltRowsAreStored(resumeId: String, form: Form)
    ensures forall k :: 0 <= k < |form.workExperiences| ==>
      StoredWorkExperience(WorkExperienceRows(resumeId, form.workExperiences)[k])
    ensures forall k :: 0 <= k < |form.education| ==> StoredEducation(EducationRows(resumeId, form.education)[k])
    ensures forall k :: 0 <= k < |form.projects| ==> StoredProject(ProjectRows(resumeId, form.projects)[k])
  {
  }

  /** The edit page's mapping of a stored work-experience row back to a form entry; saving that entry gives the row back. */
  function WorkExperienceFormOf(row: WorkExperienceRow): (e: WorkExperienceForm)
    ensures StoredWorkExperience(row) ==> WorkExperienceRows(row.resumeId, [e]) == [row.(displayOrder := 0)]
  {
    KeepNonBlankOfFiltered(row.achievements);
    KeepNonBlankOfFiltered(row.technologies);
    WorkExperienceForm(row.companyName, row.position, OrEmpty(row.location), row.startDate,
      OrEmpty(row.endDate), row.isCurrent, OrEmpty(row.description), row.achievements, row.technologies)
  }

  /** The edit page's mapping of a stored education row back to a form entry; saving that entry gives the row back. */
  function EducationFormOf(row: EducationRow): (e: EducationForm)
    ensures StoredEducation(row) ==> EducationRows(row.resumeId, [e]) == [row.(displayOrder := 0)]
  {
    KeepNonBlankOfFiltered(row.honors);
    KeepNonBlankOfFiltered(row.relevantCoursework);
    EducationForm(row.institutionName, row.degree, OrEmpty(row.fieldOfStudy), OrEmpty(row.location),
      OrEmpty(row.startDate), OrEmpty(row.endDate), row.isCurrent, OrEmpty(row.gpa), row.honors,
      row.relevantCoursework, OrEmpty(row.description))
  }

  /** The edit page's mapping of a stored project row back to a form entry; saving that entry gives the row back. */
  function ProjectFormOf(row: ProjectRow): (e: ProjectForm)
    ensures StoredProject(row) ==> ProjectRows(row.resumeId, [e]) == [row.(displayOrder := 0)]
  {
    KeepNonBlankOfFiltered(row.technologies);
    KeepNonBlankOfFiltered(row.highlights);
    ProjectForm(row.projectName, row.description, OrEmpty(row.role), OrEmpty(row.startDate),
      OrEmpty(row.endDate), row.isOngoing, row.technologies, OrEmpty(row.projectUrl),
      OrEmpty(row.githubUrl), row.highlights)
  }

  /**
    An entry added and left untouched is sent with every optional column
    NULL and empty lists; a work experience's start date, which the action
    copies without `|| null`, is sent as the empty string.
   */
  lemma UntouchedEntriesSave(resumeId: String)
    ensures var w := WorkExperienceRows(resumeId, [EmptyWorkExperience])[0];
      && w.location == None && w.endDate == None && w.description == None && w.startDate == ""
      && w.achievements == [] && w.technologies == []
    ensures var e := EducationRows(resumeId, [EmptyEducation])[0];
      && e.fieldOfStudy == None && e.location == None && e.startDate == None && e.endDate == None
      && e.gpa == None && e.description == None && e.honors == [] && e.relevantCoursework == []
  {
  }

  /** Opening a saved résumé for editing and saving it unchanged writes the same work-experience rows. */
  lemma ResaveWorkExperiences(resumeId: String, exps: seq<WorkExperienceForm>)
    ensures var rows := WorkExperienceRows(resumeId, exps);
            WorkExperienceRows(resumeId, seq(|rows|, i requires 0 <= i < |rows| => WorkExperienceFormOf(rows[i]))) == rows
  {
    var rows := WorkExperienceRows(resumeId, exps);
    var loaded := seq(|rows|, i requires 0 <= i < |rows| => WorkExperienceFormOf(rows[i]));
    var again := WorkExperienceRows(resumeId, loaded);
    forall i | 0 <= i < |rows| ensures again[i] == rows[i] {
      KeepNonBlankIdempotent(exps[i].achievements);
      KeepNonBlankIdempotent(exps[i].technologies);
    }
  }

  /** Opening a saved résumé for editing and saving it unchanged writes the same education rows. */
  lemma ResaveEducation(resumeId: String, edus: seq<EducationForm>)
    ensures var rows := EducationRows(resumeId, edus);
            EducationRows(resumeId, seq(|rows|, i requires 0 <= i < |rows| => EducationFormOf(rows[i]))) == rows
  {
    var rows := EducationRows(resumeId, edus);
    var loaded := seq(|rows|, i requires 0 <= i < |rows| => EducationFormOf(rows[i]));
    var again := EducationRows(resumeId, loaded);
    forall i | 0 <= i < |rows| ensures again[i] == rows[i] {
      KeepNonBlankIdempotent(edus[i].honors);
      KeepNonBlankIdempotent(edus[i].relevantCoursework);
    }
  }

  /** Opening a saved résumé for editing and saving it unchanged writes the same project rows. */
  lemma ResaveProjects(resumeId: String, projects: seq<ProjectForm>)
    ensures var rows := ProjectRows(resumeId, projects);
            ProjectRows(resumeId, seq(|rows|, i requires 0 <= i < |rows| => ProjectFormOf(rows[i]))) == rows
  {
    var rows := ProjectRows(resumeId, projects);
    var loaded := seq(|rows|, i requires 0 <= i < |rows| => ProjectFormOf(rows[i]));
    var again := ProjectRows(resumeId, loaded);
    forall i | 0 <= i < |rows| ensures again[i] == rows[i] {
      KeepNonBlankIdempotent(projects[i].technologies);
      KeepNonBlankIdempotent(projects[i].highlights);
    }
  }
}
