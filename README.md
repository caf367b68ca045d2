# ascendcv résumé builder — a Dafny model of its core

This project models the logic in ascendcv that turns what a user types into saved rows and a printable PDF:

- **Editor form state** (`app/resumes/new/page.tsx`): the résumé form, the generic `updateField` setter, and the add / update / remove handlers for work experience and education.
- **List inputs** (`components/resume/array-input.tsx`, `components/resume/technical-skills-group-form.tsx`): the tag-list input and the technical-skills group. Entries are trimmed, blank entries are refused, Enter adds, and entries are removed by position or by value.
- **Row building** (`app/resumes/actions.ts`): how the create and update actions turn the form into database rows. This covers `|| null` for optional text, the end date of a current position, the filter that drops blank list items, and `display_order` as the list index. The update action clears all seven child tables and then re-inserts through the same builders. The edit page's load mapping (`app/resumes/[id]/edit/page.tsx`) is modelled as the inverse of these builders.
- **PDF export** (`components/resume/download-button.tsx`): cutting one tall rendered image into A4 pages, and re-attaching each measured hyperlink to the page it falls on. The `isGenerating` flag is modelled as a field of a `DownloadButton` class whose click handler updates it.

Text is `seq<char>`. JavaScript's `trim` removes the ECMAScript WhiteSpace and LineTerminator code points. Lengths in the PDF are real numbers in millimetres. The page is portrait A4 as the handler's `jsPDF({ unit: "mm", format: "a4" })` asks for, taken as 210 by 297 mm; these are rounded values, since the library's "a4" size is 595.28 by 841.89 points, a few thousandths of a millimetre more. JavaScript's `%` is a truncating remainder and is modelled as such (`PdfExport.LinkYOnPage`).

Modules and files:

| file | module | models |
|---|---|---|
| `text.dfy` | `Text` | `trim`, blank strings |
| `wrappers.dfy` | `Wrappers` | `Option` (nullable columns, a missing element) |
| `seqs.dfy` | `Seqs` | `filter` by value and by index |
| `resume_form.dfy` | `ResumeForm` | the form records and the empty entries |
| `form_editing.dfy` | `FormEditing` | `updateField` and the section handlers |
| `array_input.dfy` | `ArrayInput` | the tag-list input |
| `skills_group.dfy` | `SkillsGroup` | the technical-skills group |
| `row_building.dfy` | `RowBuilding` | the create and update actions' rows, and the load mapping |
| `pdf_export.dfy` | `PdfExport` | pagination, link placement, the download button |

A missing résumé element is only logged to the console and the handler returns (`components/resume/download-button.tsx:22-25`); `HandleDownload` with no target records no alert and no file.

## Model

| member | source | states |
|---|---|---|
| Text.TrimStart | components/resume/array-input.tsx:27 | the result is a suffix of the input, everything cut off is whitespace, and the result does not start with whitespace |
| Text.TrimEnd | components/resume/array-input.tsx:27 | the result is a prefix of the input, everything cut off is whitespace, and the result does not end with whitespace |
| Text.Trim | components/resume/array-input.tsx:27 | the trimmed string has no outer whitespace, is no longer than the input, and is empty exactly when the input is all whitespace |
| Text.TrimOfTrimmed | components/resume/array-input.tsx:27 | a string with no outer whitespace is its own trim |
| Text.TrimIdempotent | components/resume/array-input.tsx:27 | trimming twice equals trimming once |
| Text.TrimIsSlice | components/resume/array-input.tsx:27 | the trim is a contiguous slice of the input with only whitespace on either side |
| Seqs.Filter | app/resumes/actions.ts:58-59 | every kept element is in the input and passes the test; every passing element of the input is kept |
| Seqs.FilterAppend | app/resumes/actions.ts:58-59 | filtering a concatenation filters each part, in order |
| Seqs.FilterAllPass | app/resumes/actions.ts:58-59 | when every element passes, the filter returns the input unchanged |
| Seqs.FilterIdempotent | app/resumes/actions.ts:58-59 | filtering twice equals filtering once |
| Seqs.FilterMultiset | components/resume/technical-skills-group-form.tsx:37-39 | a passing value keeps its count; a failing value's count drops to zero |
| Seqs.FilterPositionsMissIndex | components/resume/array-input.tsx:33-35 | filtering by index with no position equal to the index keeps everything |
| Seqs.FilterPositionsHitIndex | components/resume/array-input.tsx:33-35 | filtering by index drops exactly the element at that position |
| Seqs.RemoveAt | app/resumes/new/page.tsx:91-96 | an index in range drops exactly that element; an index out of range changes nothing |
| Seqs.RemoveAtLength | app/resumes/new/page.tsx:91-96 | removal shortens the list by one exactly when the index is in range |
| Seqs.RemoveLastAppended | app/resumes/new/page.tsx:91-96 | removing the last position of a list after an append gives back the list |
| FormEditing.Get | app/resumes/new/page.tsx:74-76 | the value read under a key has the type the form declares for that key |
| FormEditing.FieldsDetermineForm | app/resumes/new/page.tsx:74-76 | two forms that agree on every field are equal |
| FormEditing.UpdateField | app/resumes/new/page.tsx:74-76 | the named field takes the new value and every other field is unchanged |
| FormEditing.UpdateFieldUnique | app/resumes/new/page.tsx:74-76 | any form with the new value in the field and the old values elsewhere is the updated form |
| FormEditing.UpdateFieldWithCurrentValue | app/resumes/new/page.tsx:74-76 | setting a field to its current value changes nothing |
| FormEditing.AddWorkExperience | app/resumes/new/page.tsx:78-83 | appends the empty entry, keeps the earlier entries, and touches no other field |
| FormEditing.UpdateWorkExperience | app/resumes/new/page.tsx:85-89 | replaces exactly the entry at the index; length, the other entries and the other fields are unchanged |
| FormEditing.RemoveWorkExperience | app/resumes/new/page.tsx:91-96 | drops exactly the entry at an in-range index, changes nothing otherwise, and touches no other field |
| FormEditing.AddEducation | app/resumes/new/page.tsx:98-103 | appends the empty education entry and keeps everything else |
| FormEditing.UpdateEducation | app/resumes/new/page.tsx:105-109 | replaces exactly the entry at the index and keeps everything else |
| FormEditing.RemoveEducation | app/resumes/new/page.tsx:111-116 | drops exactly the entry at an in-range index and keeps everything else |
| FormEditing.RemoveUndoesAddWorkExperience | app/resumes/new/page.tsx:78-96 | removing the entry just added restores the form |
| FormEditing.RemoveUndoesAddEducation | app/resumes/new/page.tsx:98-116 | removing the education entry just added restores the form |
| FormEditing.SectionHandlersAreFieldUpdates | app/resumes/new/page.tsx:74-116 | each section handler is `updateField` on its section with the new list |
| ResumeForm.NewEntriesAreBlank | app/resumes/new/page.tsx:16-40 | the entries the add buttons append have blank text, are not current and have no list items |
| FormEditing.InitialFormIsEmpty | app/resumes/new/page.tsx:53-72 | the new-résumé form starts with empty text, empty sections, not public, and template "default" |
| ArrayInput.HandleAdd | components/resume/array-input.tsx:26-31 | a non-blank input is appended trimmed and the box is cleared; a blank input changes nothing |
| ArrayInput.HandleRemove | components/resume/array-input.tsx:33-35 | drops exactly the value at an in-range index, otherwise changes nothing; the box is untouched |
| ArrayInput.HandleKeyPress | components/resume/array-input.tsx:37-42 | Enter adds and prevents the form submission; other keys change nothing |
| ArrayInput.LengthChanges | components/resume/array-input.tsx:26-35 | an add grows the list by one exactly when the input is not blank; a remove shrinks it by one exactly when the index exists |
| ArrayInput.AddKeepsValuesClean | components/resume/array-input.tsx:26-31 | an add keeps every value non-empty and trimmed |
| ArrayInput.RemoveKeepsValuesClean | components/resume/array-input.tsx:33-35 | a remove keeps every value non-empty and trimmed |
| ArrayInput.HandlersKeepValuesClean | components/resume/array-input.tsx:26-42 | lists built through the input hold only non-empty trimmed values |
| ArrayInput.RemoveUndoesAdd | components/resume/array-input.tsx:26-35 | removing the value just added restores the list |
| SkillsGroup.HandleAddSkill | components/resume/technical-skills-group-form.tsx:28-35 | a non-blank skill is appended trimmed and the box cleared; a blank one changes nothing; the category is kept |
| SkillsGroup.HandleRemoveSkill | components/resume/technical-skills-group-form.tsx:37-39 | every copy of the skill goes and every other skill keeps its count |
| SkillsGroup.EditCategory | components/resume/technical-skills-group-form.tsx:68 | the category becomes the typed value and the skills are unchanged |
| SkillsGroup.HandleKeyDown | components/resume/technical-skills-group-form.tsx:41-46 | Enter adds and prevents the form submission; other keys change nothing |
| SkillsGroup.RemoveSkillKeepsOrder | components/resume/technical-skills-group-form.tsx:37-39 | removal works piecewise on any split of the list, so the order of what remains is kept |
| SkillsGroup.RemoveSkillIdempotent | components/resume/technical-skills-group-form.tsx:37-39 | removing a skill twice equals removing it once |
| SkillsGroup.RemoveAbsentSkill | components/resume/technical-skills-group-form.tsx:37-39 | removing a skill that is not listed changes nothing |
| SkillsGroup.AddSkillLength | components/resume/technical-skills-group-form.tsx:28-35 | the list grows by one exactly on a non-blank add |
| SkillsGroup.AddedSkillIsTrimmed | components/resume/technical-skills-group-form.tsx:28-35 | an added skill is non-empty and has no outer whitespace |
| RowBuilding.OrNull | app/resumes/actions.ts:30-35 | only the empty string becomes null; any other string is stored as is |
| RowBuilding.OrEmpty | app/resumes/actions.ts:30-35 | the inverse of `\|\| null` that the edit page applies on loading (app/resumes/[id]/edit/page.tsx:83-88): null loads as the empty string, any other value as is |
| RowBuilding.OrNullRoundTrip | app/resumes/actions.ts:30-35 | saving then loading gives back any string; loading then saving gives back any column value except a stored empty string |
| RowBuilding.EndDateColumn | app/resumes/actions.ts:55 | the end date is null exactly when the entry is current or the date is empty |
| RowBuilding.KeepNonBlank | app/resumes/actions.ts:58-59 | keeps exactly the items whose trim is not empty |
| RowBuilding.KeepNonBlankKeepsOrder | app/resumes/actions.ts:58-59 | the blank-item filter works piecewise, so the order of what remains is kept |
| RowBuilding.KeepNonBlankIdempotent | app/resumes/actions.ts:58-59 | filtering twice equals filtering once |
| RowBuilding.InputListsSurviveFilter | app/resumes/actions.ts:58-59 | lists built through the tag-list input lose nothing to the blank-item filter |
| RowBuilding.ResumeRecordOf | app/resumes/actions.ts:25-38 | required fields are stored as typed, optional text through `\|\| null`, and the flag and template as typed |
| RowBuilding.WorkExperienceRows | app/resumes/actions.ts:48-61 | one row per entry, in order, owned by the résumé, with `display_order` as its index and the field rules above |
| RowBuilding.EducationRows | app/resumes/actions.ts:74-89 | one row per entry in order, with the index as `display_order`; start and end dates, GPA and the other optional text are null when empty; list items are filtered |
| RowBuilding.SkillRows | app/resumes/actions.ts:101-108 | one row per skill in order, with the index as `display_order`; the proficiency is stored as typed |
| RowBuilding.ProjectRows | app/resumes/actions.ts:120-134 | one row per project in order, with the index as `display_order`; the description is stored as typed and the optional text is null when empty |
| RowBuilding.CertificationRows | app/resumes/actions.ts:146-157 | one row per certification in order, with the index as `display_order`; the optional text is null when empty |
| RowBuilding.AwardRows | app/resumes/actions.ts:169-177 | one row per award in order, with the index as `display_order`; the optional text is null when empty |
| RowBuilding.LanguageRows | app/resumes/actions.ts:189-195 | one row per language in order, with the index as `display_order` and the fields as typed |
| RowBuilding.TotalRowsAppend | app/resumes/actions.ts:47-196 | the row total of two batches of inserts is the sum of their totals |
| RowBuilding.AppendIfAny | app/resumes/actions.ts:48 | a section's insert is issued only when it has rows: the earlier inserts stay as they are, and the section's insert itself is appended exactly when it has rows, after the earlier tables |
| RowBuilding.SectionInsert | app/resumes/actions.ts:47-196 | each table's insert carries one row per entry of its section, all owned by the résumé |
| RowBuilding.AppendKeepsSectionInserts | app/resumes/actions.ts:47-196 | issuing the next table's insert keeps every insert its own table's section insert |
| RowBuilding.AppendCoversSection | app/resumes/actions.ts:47-196 | after issuing the next table's insert, each table so far has an insert exactly when its section has entries |
| RowBuilding.InsertsOfAllSections | app/resumes/actions.ts:47-196 | over all seven tables, the inserts are exactly the section inserts of the non-empty sections |
| RowBuilding.InsertsBelow | app/resumes/actions.ts:47-196 | the inserts for the first n tables are, in table order, exactly the inserts of their non-empty sections, and hold one row per entry |
| RowBuilding.ChildInserts | app/resumes/actions.ts:47-196 | inserts go table by table in the source's order; each is its table's section insert, a table gets one exactly when its section has entries, none is empty, all rows belong to the résumé, and together they hold one row per form entry |
| RowBuilding.AllTablesComplete | app/resumes/actions.ts:364-372 | the seven child tables are all the tables |
| RowBuilding.CreateResume | app/resumes/actions.ts:11-210 | the record is the form's `resumes` record and belongs to the signed-in user; the child inserts are exactly the form's section inserts under the new résumé id, each row owned by it |
| RowBuilding.UpdateResume | app/resumes/actions.ts:325-495 | the record is the form's `resumes` record for that id; every child table is cleared; the re-inserted children are exactly the form's section inserts under the résumé id, each row owned by it |
| RowBuilding.UpdateMatchesCreate | app/resumes/actions.ts:375-485 | update writes the same record fields and child rows as create does |
| RowBuilding.KeepNonBlankOfFiltered | app/resumes/actions.ts:58-59 | a list without blank items passes the blank-item filter unchanged |
| RowBuilding.BuiltRowsAreStored | app/resumes/actions.ts:48-134 | every work, education and project row the builders write has no empty-string optional column, no end date when current or ongoing, and no blank list item |
| RowBuilding.UntouchedEntriesSave | app/resumes/actions.ts:48-89 | an entry added and left untouched is sent with NULL optional columns and empty lists, except a work start date, sent as the empty string |
| RowBuilding.WorkExperienceFormOf | app/resumes/actions.ts:49-61 | the edit page's load mapping (app/resumes/[id]/edit/page.tsx:89-97): a stored work row loaded into the form and saved again gives the row back |
| RowBuilding.EducationFormOf | app/resumes/actions.ts:75-89 | the edit page's load mapping (app/resumes/[id]/edit/page.tsx:98-108): a stored education row loaded into the form and saved again gives the row back |
| RowBuilding.ProjectFormOf | app/resumes/actions.ts:121-134 | the edit page's load mapping (app/resumes/[id]/edit/page.tsx:113-122): a stored project row loaded into the form and saved again gives the row back |
| RowBuilding.ResaveWorkExperiences | app/resumes/actions.ts:375-388 | work rows loaded into the form by the edit page (app/resumes/[id]/edit/page.tsx:89-97) and saved again give the same rows |
| RowBuilding.ResaveEducation | app/resumes/actions.ts:394-409 | education rows loaded by the edit page (app/resumes/[id]/edit/page.tsx:98-108) and saved again give the same rows |
| RowBuilding.ResaveProjects | app/resumes/actions.ts:428-442 | project rows loaded by the edit page (app/resumes/[id]/edit/page.tsx:113-122) and saved again give the same rows |
| PdfExport.Ceiling | components/resume/download-button.tsx:64-79 | the result is the least integer not below the input |
| PdfExport.PageCountUnique | components/resume/download-button.tsx:64-79 | at most one page count covers a given content height |
| PdfExport.PageCountIsCeiling | components/resume/download-button.tsx:64-79 | for positive content height the page count is the height in pages, rounded up |
| PdfExport.ShortContentIsOnePage | components/resume/download-button.tsx:64-79 | content no taller than one page gives one page |
| PdfExport.Paginate | components/resume/download-button.tsx:63-79 | the loop adds exactly enough pages to cover the image; page k+1 shows it shifted up by k page heights |
| PdfExport.Trunc | components/resume/download-button.tsx:91 | rounds toward zero |
| PdfExport.LinkPage | components/resume/download-button.tsx:90 | the page is the one whose span of page heights contains the point |
| PdfExport.LinkYOnPage | components/resume/download-button.tsx:91 | the truncating remainder: at or below the top, an offset inside the page that with the page gives back the point; above the top, an offset of at most zero and more than minus one page height |
| PdfExport.LinkPlacement | components/resume/download-button.tsx:88-91 | a link at or below the top lands on page 1 or later, inside that page, and page plus offset give back its position |
| PdfExport.LinkPlacementUnique | components/resume/download-button.tsx:88-91 | any page and in-page offset that give back the position are the computed ones |
| PdfExport.LinkOnBoundary | components/resume/download-button.tsx:88-91 | a link exactly on a page boundary starts the next page at offset 0 |
| PdfExport.LinkAboveContent | components/resume/download-button.tsx:88-97 | a link less than a page above the top gets page 0 and a non-positive offset, which the `linkPage <= page` guard lets through |
| PdfExport.ToMillimetres | components/resume/download-button.tsx:83-86 | keeps the URL, keeps a link at or below the top there under a non-negative scale, and changes nothing at scale 1 |
| PdfExport.Place | components/resume/download-button.tsx:90-96 | keeps x, width, height and URL; a point at or below the top lands on page 1 or later, inside that page, and page plus offset give back its position; a point above the top gets a page of 0 or less |
| PdfExport.Emit | components/resume/download-button.tsx:88-97 | at most one annotation per link, present exactly when the link's page is at most the page count, and then it is the placed link |
| PdfExport.RemapAll | components/resume/download-button.tsx:82-98 | no more annotations than links, each on a page no later than the last generated page |
| PdfExport.AddLinks | components/resume/download-button.tsx:82-98 | the loop emits, in link order, one annotation per link whose page exists |
| PdfExport.ScaledInsideContent | components/resume/download-button.tsx:84 | scaling by a non-negative factor keeps a link inside the content |
| PdfExport.AnnotationsOnPages | components/resume/download-button.tsx:88-97 | with links inside the content, every annotation lies on a generated page and within that page |
| PdfExport.AnnotationsOnAppend | components/resume/download-button.tsx:82-98 | per-page annotation counts add up over concatenation |
| PdfExport.AnnotationsPerPage | components/resume/download-button.tsx:82-98 | each generated page gets one annotation per link that falls on it, and a page beyond the document gets none |
| PdfExport.LinkInsideImageIsKept | components/resume/download-button.tsx:59-97 | a link whose scaled top lies inside the image falls on a generated page and is annotated |
| PdfExport.LinkBelowLastPageIsDropped | components/resume/download-button.tsx:90-97 | a link whose scaled top lies at or past the end of the last page gets a later page and is dropped |
| PdfExport.LinksInsideImageAreKept | components/resume/download-button.tsx:59-98 | with the page count the pagination loop produces, every link inside the image is annotated, in order |
| PdfExport.NoLinkDropped | components/resume/download-button.tsx:93-97 | when every link falls on a generated page, every link is annotated, in order |
| PdfExport.HalfScaleExample | components/resume/download-button.tsx:83-91 | at half scale, a link 1000 pixels down lands 203 mm down page 2 |
| PdfExport.ThreePageScenario | components/resume/download-button.tsx:62-98 | content three pages tall gives three pages, and links on pages 1 and 3 are annotated there |
| PdfExport.DownloadButton.constructor | components/resume/download-button.tsx:15 | the button starts idle, with no downloads and no alerts |
| PdfExport.DownloadButton.HandleDownload | components/resume/download-button.tsx:17-107 | the button is idle again on every path; a missing element records nothing; a failure adds the failure alert; a success saves `<fileName>.pdf` with exactly enough pages and the link annotations |

## Left out

- DOM measurement, `toPng` and jsPDF are not modelled. The measured link boxes, the scale and the rendered image height are inputs to `HandleDownload`. A thrown render is the `RenderFailed` input. The console messages are not modelled.
- PdfExport: arithmetic is on exact reals. JavaScript's double-precision rounding is not modelled.
- PdfExport: the page is fixed at A4, rounded to 210 by 297 mm. The library's exact "a4" size, a few thousandths of a millimetre larger, and other page sizes are not modelled.
- PdfExport.DownloadButton.HandleDownload: the intermediate `isGenerating == true` state during the asynchronous render is not observable in the model. Overlapping clicks while the button is disabled are not modelled, and neither is the button's label.
- PdfExport.AnnotationsOnPages: requires links at or below the top of the résumé and a non-negative scale. A link less than one page height above the top gets page 0 (`PdfExport.LinkAboveContent`), and a link further up gets a negative page (`PdfExport.Place`); the source passes either to `setPage`. jsPDF's response to that is not part of this model.
- A link whose box straddles a page break is annotated only on the page where its top lies, with its full height, as in the source.
- Supabase I/O is reduced to the rows and deletes it would receive: authentication, error returns and the `Promise.all` concurrency of the update action. The `updated_at` timestamp is a clock read and is not modelled.
- RowBuilding.ChildInserts: the model gives the inserts the actions issue, in the source's table order. The database's answers are not modelled. In the create action a failed child insert is only logged and the action goes on, and a failed record insert ends it with an error. The update action does not read the result of its child inserts at all (app/resumes/actions.ts:390, 411, 424, 444, 461, 475, 487).
- RowBuilding.UntouchedEntriesSave: gives the row the action sends. Whether the database accepts an empty string in the work `start_date` column, which holds a date, is outside this model.
- RowBuilding: only the work-experience, education and project load mappings of the edit page are modelled as inverses. The skills mapping (its `|| "Intermediate"` default) and the certification, award and language mappings are not.
- FormEditing.UpdateField: requires the value to have the field's type (`Fits`). This stands in for TypeScript's typing of the form state; an ill-typed `value: any` is not modelled.
- FormEditing.UpdateWorkExperience: requires an index in range. The editor only passes indexes of rendered entries. An out-of-range JavaScript array write, which would leave holes, is not modelled.
- FormEditing.UpdateEducation: requires an index in range, for the same reason.
- The per-section form components other than the tag-list input and the skills group are not part of this model, and neither is input focus handling. They only forward values to `updateField`.
- Text.Trim covers the ECMAScript WhiteSpace and LineTerminator code points listed in `Text.IsSpace`. Other Unicode space separators, beyond those listed, are not modelled.
