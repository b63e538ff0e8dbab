# work-assign worksheet tool — a Dafny model of its core

work-assign lets a teacher write a question paper: an ordered list of general
instructions and an ordered list of sections, each section holding questions
(text plus an optional image URL) that carry the same number of marks. The
paper is edited in the browser, listed and searched on a dashboard, and
exported as a Word document through a dialog that asks for the exam details.

This project models four parts of that tool and proves what they promise.

- `DocxExport` (`docx_export.dfy`): the document assembler. It checks the
  export inputs, renders each section (a positional `SECTION-<letter>` title,
  an instructions line, and per question a numbered text paragraph followed,
  when the question has an image URL, by the image or a placeholder), prefixes
  the header and the numbered general instructions, and names the file. Image
  downloads are an oracle `string -> Option<bytes>`. The two loops of the
  source are methods proved equal to specification functions, and the layout
  facts are lemmas about those functions.
- `Editor` (`editor.dfy`): the editor page. The list updaters are functions
  over the section and instruction lists. The page state is a class whose
  methods apply them. Global question numbering is a loop method proved
  against `GlobalNumber`. Loading migrates questions stored as bare strings.
- `DashboardPage` (`dashboard.dfy`): case-insensitive title search, delete by
  id and rename by id. The page state is a class; the database call's outcome
  is a boolean input, and the list changes only when it succeeded.
- `ExportDialog` (`export_modal.dfy`): the ordered form check, the options
  built for the exporter, and the `isExporting`/open transitions of pressing
  Export.

Supporting modules: `Wrappers` (Option, Result), `Worksheets` (the stored
shapes: `Question`, `Section`, `Worksheet`) and `JsText`, the JavaScript
string and number primitives the code relies on (`trim`, ASCII case mapping,
`includes`, integer printing, `parseInt` with no radix, where None stands for
NaN, and `String.fromCharCode`).

Two behaviours of the code are kept as they are, not corrected:

- The editor numbers questions across the whole paper, but the exported
  document restarts at 1 in every section. `Editor.ExportNumberingDiffers`
  states exactly when the two agree.
- The exporter tests `maxMarks` for truthiness, so it refuses 0 and NaN and
  lets a negative number through. The dialog refuses non-positive numbers but
  lets unparsable text through as NaN, which the exporter then refuses.
  `ExportDialog.NegativeMarksOnlyFormRejects` and
  `ExportDialog.UnparsedMarksPassForm` state both sides.

## Model

| member | source | states |
|---|---|---|
| `JsText.TrimEmptyIffBlank` | src/components/ExportModal.tsx:27-46 | `trim()` yields the empty string exactly when every character is ECMAScript whitespace, so `!x.trim()` means "all blank" |
| `JsText.TrimIdempotent` | src/components/ExportModal.tsx:63-68 | trimmed text starts and ends with a non-blank and trimming it again changes nothing |
| `JsText.Includes` | src/pages/Dashboard.tsx:88 | `includes` holds exactly when the needle occurs as a contiguous piece at some position |
| `JsText.ToLowerIdempotent` | src/pages/Dashboard.tsx:88 | lower-casing twice is lower-casing once, and leaves no upper-case ASCII letter |
| `JsText.ParseIntOfIntToString` | src/components/ExportModal.tsx:69 | `parseInt` of the decimal text of an integer gives back that integer (exact integers; see Left out for doubles) |
| `JsText.ParseIntLeadingDigits` | src/components/ExportModal.tsx:69 | `parseInt` reads a leading decimal digit run and stops at the first character that is no digit (other than a hex "x") |
| `JsText.ParseIntNonNumeric` | src/components/ExportModal.tsx:69 | text starting with a character that is no blank, sign or digit parses to NaN |
| `JsText.FromCharCodeLetters` | src/lib/docxExportService.ts:53 | `String.fromCharCode(65 + k)` is the k-th capital letter for k < 26 |
| `DocxExport.GenerateSection` | src/lib/docxExportService.ts:43-161 | the loop over questions builds exactly `SectionBlocks`: title, instructions, then each question's blocks in input order |
| `DocxExport.QuestionsUpToAt` | src/lib/docxExportService.ts:77-154 | question j sits after the blocks of questions 0..j-1, numbered j+1, with its image slot right after it when it has an image URL |
| `DocxExport.SectionBlockCount` | src/lib/docxExportService.ts:76-156 | a section yields 2 + number of questions + number of questions with an image URL blocks |
| `DocxExport.NextQuestionOffset` | src/lib/docxExportService.ts:77-154 | each question takes one block, plus one exactly when it has an image URL |
| `DocxExport.SectionQuestionAt` | src/lib/docxExportService.ts:80-151 | question j is numbered j+1 whatever the section's position, its unset text prints as "", and a failed fetch puts the placeholder where the image would be |
| `DocxExport.QuestionParagraphText` | src/lib/docxExportService.ts:80-107 | a question paragraph reads the number, ". ", the text and the mark suffix |
| `DocxExport.SectionTitleIsPositional` | src/lib/docxExportService.ts:45-61 | the section title is "SECTION-" plus the letter of the section's position and does not depend on the stored title |
| `DocxExport.InstructionsPlural` | src/lib/docxExportService.ts:70 | the instructions line ends in "marks." exactly when marks per question > 1, otherwise in " mark." (0 and negatives are singular) |
| `DocxExport.MarkSuffixPlural` | src/lib/docxExportService.ts:104 | the question suffix ends in "Marks]" exactly when marks > 1, otherwise in " Mark]" |
| `DocxExport.MarkSuffixExamples` | src/lib/docxExportService.ts:104 | after a question one mark prints as " [1 Mark]", two as " [2 Marks]" |
| `DocxExport.InstructionsExamples` | src/lib/docxExportService.ts:63-70 | the instructions line ends "carries 1 mark." for one mark and "carries 2 marks." for two |
| `DocxExport.InstructionParagraph` | src/lib/docxExportService.ts:345-367 | the instruction at index i reads "i+1. " followed by the instruction |
| `DocxExport.GenerateInstructions` | src/lib/docxExportService.ts:343-373 | one paragraph per instruction, in order, numbered from 1 |
| `DocxExport.SectionsUpToLength` | src/lib/docxExportService.ts:179-183 | however the fetches turn out, the sections produce the sum of their block counts |
| `DocxExport.SectionsInOrder` | src/lib/docxExportService.ts:179-183 | the blocks of section k follow those of sections 0..k-1, whole and in order |
| `DocxExport.HeaderText` | src/lib/docxExportService.ts:208-314 | six header blocks: exam title, upper-cased school, upper-cased class, the Time/M.M. line, the SUBJECT line and "General Instructions:" |
| `DocxExport.FileName` | src/lib/docxExportService.ts:333 | the name is the title plus ".docx", or "Worksheet.docx" for an empty title |
| `DocxExport.GenerateWorksheetDocx` | src/lib/docxExportService.ts:163-341 | checks the inputs, renders the sections in a loop and assembles exactly `ExportDocument` |
| `DocxExport.AcceptedDocument` | src/lib/docxExportService.ts:186-325 | an accepted export is header, numbered instructions, then all section blocks |
| `DocxExport.DocumentLayout` | src/lib/docxExportService.ts:208-324 | document length and order: 6 header blocks, one numbered block per instruction (none when unset), then the sections |
| `DocxExport.DocumentShape` | src/lib/docxExportService.ts:320-323 | an accepted document is the six header blocks, one block per instruction, then exactly the rendered sections, so with SectionsInOrder section k sits right after sections 0..k-1 |
| `DocxExport.ExportAcceptance` | src/lib/docxExportService.ts:170-176 | refused as invalid data exactly when sections are unset; otherwise refused for options exactly when school, subject, class or time is empty or maxMarks is 0 or NaN |
| `DocxExport.ExamTitleNotChecked` | src/lib/docxExportService.ts:174 | the exam title plays no part in acceptance |
| `DocxExport.SectionLayoutIndependent` | src/lib/docxExportService.ts:113-151 | a section's blocks differ between two fetch outcomes only by image versus placeholder in the same places |
| `DocxExport.ExportIndependentOfFetch` | src/lib/docxExportService.ts:113-151 | fetch failures never decide acceptance, the file name or any text block |
| `Editor.ReplaceAt` | src/pages/Index.tsx:110-114 | only the element at the index changes; an out-of-range index changes nothing |
| `Editor.RemoveAt` | src/pages/Index.tsx:120-122 | exactly the element at the index goes and the rest keep their order; an out-of-range index changes nothing |
| `Editor.InstructionEditsInverse` | src/pages/Index.tsx:110-122 | removing the instruction just added restores the list; rewriting an entry with its own text changes nothing |
| `Editor.QuestionUpdated` | src/pages/Index.tsx:124-137 | only question `questionIndex` of sections with the id changes; every other field and section is unchanged |
| `Editor.QuestionAdded` | src/pages/Index.tsx:139-147 | matching sections gain one empty question at the end, the rest of each section and all other sections are unchanged |
| `Editor.QuestionDeleted` | src/pages/Index.tsx:149-160 | matching sections lose exactly the question at the index, the others keep their order |
| `Editor.AddThenDeleteQuestion` | src/pages/Index.tsx:139-160 | deleting the question just added restores the sections |
| `Editor.SettingsUpdated` | src/pages/Index.tsx:170-186 | only title, type and marks of matching sections change; ids and questions stay |
| `Editor.SectionAdded` | src/pages/Index.tsx:188-197 | one section is appended, titled "Section " plus the next letter, of type "Short answer", one mark, one empty question; existing sections unchanged |
| `Editor.GlobalNumbersIncrease` | src/pages/Index.tsx:162-168 | displayed numbers strictly increase in display order, start at 1 and stay within the number of questions |
| `Editor.ExportNumberingDiffers` | src/pages/Index.tsx:162-168 | the document numbers question j of section k as j+1, which equals the editor's number exactly when earlier sections hold no questions |
| `Editor.QuestionsBeforeShift` | src/pages/Index.tsx:162-168 | when question counts differ only in section k, by d, numbers after section k differ by d and earlier ones agree |
| `Editor.NumbersAfterAddQuestion` | src/pages/Index.tsx:139-168 | adding a question shifts the numbers of later sections up by one and leaves earlier ones |
| `Editor.NumbersAfterDeleteQuestion` | src/pages/Index.tsx:149-168 | deleting a question shifts the numbers of later sections down by one |
| `Editor.NumbersAfterAddSection` | src/pages/Index.tsx:162-197 | a new section keeps all existing numbers and continues after the last one |
| `Editor.MigrateSections` | src/pages/Index.tsx:65-70 | each section keeps its fields and question count, each question is migrated in place |
| `Editor.MigrateStoredSections` | src/pages/Index.tsx:65-70 | migrating sections stored in the current format gives them back unchanged |
| `Editor.MigrateLegacy` | src/pages/Index.tsx:67-69 | a bare string becomes a question with that text and no image |
| `Editor.WorksheetEditor.constructor` | src/pages/Index.tsx:33-46 | a new paper: "Untitled Paper", the six default instructions, one MCQ section "Section A" with one empty question |
| `Editor.WorksheetEditor.SnapshotHasSections` | src/pages/Index.tsx:371-380 | exporting what the editor hands over is never refused as invalid data, and an accepted export is built from the instructions, sections and title on screen |
| `Editor.WorksheetEditor.UpdateInstruction` | src/pages/Index.tsx:110-114 | instructions become `ReplaceAt` of the old ones; all else unchanged |
| `Editor.WorksheetEditor.AddInstruction` | src/pages/Index.tsx:116-118 | an empty instruction is appended; all else unchanged |
| `Editor.WorksheetEditor.RemoveInstruction` | src/pages/Index.tsx:120-122 | instructions become `RemoveAt` of the old ones; all else unchanged |
| `Editor.WorksheetEditor.UpdateQuestion` | src/pages/Index.tsx:124-137 | sections become `QuestionUpdated` of the old ones; all else unchanged |
| `Editor.WorksheetEditor.AddQuestion` | src/pages/Index.tsx:139-147 | sections become `QuestionAdded` of the old ones; all else unchanged |
| `Editor.WorksheetEditor.DeleteQuestion` | src/pages/Index.tsx:149-160 | sections become `QuestionDeleted` of the old ones; all else unchanged |
| `Editor.WorksheetEditor.UpdateSectionSettings` | src/pages/Index.tsx:170-186 | sections become `SettingsUpdated` of the old ones; all else unchanged |
| `Editor.WorksheetEditor.AddSection` | src/pages/Index.tsx:188-197 | sections become `SectionAdded` of the old ones; all else unchanged |
| `Editor.WorksheetEditor.GlobalQuestionIndex` | src/pages/Index.tsx:162-168 | the loop returns the questions of earlier sections plus the index plus one |
| `Editor.WorksheetEditor.LoadWorksheet` | src/pages/Index.tsx:55-84 | a failed or empty read changes nothing; a found record sets title and description, then migrates sections and defaults the instructions, or fails with title and description already set when it has no section list |
| `DashboardPage.FilterWorksheets` | src/pages/Dashboard.tsx:87-89 | a worksheet is shown exactly when it is in the list and its lower-cased title contains the lower-cased query |
| `DashboardPage.FilterAppend` | src/pages/Dashboard.tsx:87-89 | filtering distributes over concatenation, so the shown rows keep their relative order |
| `DashboardPage.FilterAllMatch` | src/pages/Dashboard.tsx:87-89 | when every worksheet matches, the whole list is shown in order |
| `DashboardPage.EmptyQueryShowsAll` | src/pages/Dashboard.tsx:87-89 | an empty query shows the whole list in order |
| `DashboardPage.QueryCaseInsensitive` | src/pages/Dashboard.tsx:88 | upper- or lower-casing the query does not change the shown rows |
| `DashboardPage.FilterIdempotent` | src/pages/Dashboard.tsx:87-89 | filtering the shown rows again gives the same rows |
| `DashboardPage.RemoveById` | src/pages/Dashboard.tsx:62 | exactly the worksheets with the id are removed |
| `DashboardPage.RemoveByIdAppend` | src/pages/Dashboard.tsx:62 | removal distributes over concatenation, so the rest keep their order |
| `DashboardPage.RemoveByIdAbsent` | src/pages/Dashboard.tsx:62 | deleting an id no worksheet has leaves the list unchanged |
| `DashboardPage.RemoveByIdIdempotent` | src/pages/Dashboard.tsx:62 | deleting the same id twice is deleting it once |
| `DashboardPage.RenameById` | src/pages/Dashboard.tsx:73-77 | only the title of matching worksheets changes, to the new title; every other field and entry is unchanged |
| `DashboardPage.RenamedIsFound` | src/pages/Dashboard.tsx:73-89 | a renamed worksheet is shown when searching for its new title |
| `DashboardPage.RenameThenRemove` | src/pages/Dashboard.tsx:59-77 | renaming does not change what a later delete removes |
| `DashboardPage.Dashboard.constructor` | src/pages/Dashboard.tsx:12-15 | empty query, no editing, empty editing title, empty list |
| `DashboardPage.Dashboard.Filtered` | src/pages/Dashboard.tsx:87-89 | the shown rows are the matching worksheets; with an empty query, all of them |
| `DashboardPage.Dashboard.SetSearchQuery` | src/pages/Dashboard.tsx:168 | only the query changes |
| `DashboardPage.Dashboard.StartEditing` | src/pages/Dashboard.tsx:39-42 | editing id and title come from the chosen worksheet; the list is unchanged |
| `DashboardPage.Dashboard.SetEditingTitle` | src/pages/Dashboard.tsx:190 | only the editing title changes |
| `DashboardPage.Dashboard.CancelEditing` | src/pages/Dashboard.tsx:44-47 | editing id becomes null and the editing title ""; the list is unchanged |
| `DashboardPage.Dashboard.HandleDelete` | src/pages/Dashboard.tsx:59-68 | on success the list becomes `RemoveById`; on failure it is unchanged; editing state never changes |
| `DashboardPage.Dashboard.SaveTitle` | src/pages/Dashboard.tsx:70-85 | on success the list becomes `RenameById` with the editing title and editing is cleared; on failure nothing changes |
| `ExportDialog.ValidateForm` | src/components/ExportModal.tsx:26-52 | no failure exactly when every field passes; otherwise the reported field fails and every earlier field passes |
| `ExportDialog.BuildOptionsTrimmed` | src/components/ExportModal.tsx:62-70 | every text option handed to the exporter is already trimmed, and it is empty exactly when its form field is blank |
| `ExportDialog.AcceptedFormOptions` | src/components/ExportModal.tsx:26-70 | a form that passes its check yields non-empty school, subject, class, time and exam title, and marks that are positive or NaN |
| `ExportDialog.AcceptedFormReachesExporter` | src/components/ExportModal.tsx:55-70 | for a worksheet with sections, the export of an accepted form succeeds exactly when the marks parse |
| `ExportDialog.UnparsedMarksPassForm` | src/components/ExportModal.tsx:26-70 | a form with filled-in text fields and non-empty marks that do not parse passes the check, and the exporter then refuses the options as missing |
| `ExportDialog.UnparsedMarksExample` | src/components/ExportModal.tsx:47 | marks ".5", which the number input delivers, parse to NaN and are not rejected by the marks check |
| `ExportDialog.NegativeMarksOnlyFormRejects` | src/components/ExportModal.tsx:47 | the form refuses the text of a whole number exactly when it is not positive, while the exporter accepts every number but 0 |
| `ExportDialog.MarksInExponentForm` | src/components/ExportModal.tsx:47 | marks "1e3" parse to 1, not 1000, and pass the form |
| `ExportDialog.ExportedOnlyWhenValid` | src/components/ExportModal.tsx:54-80 | a document is produced exactly for a valid DOCX form whose export succeeds and is saved, and it is the exporter's document for the built options |
| `ExportDialog.ExportModal.constructor` | src/components/ExportModal.tsx:17-24 | preset exam title, other fields empty, DOCX selected, not exporting |
| `ExportDialog.ExportModal.SetForm` | src/components/ExportModal.tsx:93-172 | only the form changes |
| `ExportDialog.ExportModal.HandleExport` | src/components/ExportModal.tsx:54-80 | an invalid form changes nothing; otherwise the running flag ends false and the dialog closes exactly on a saved export |

## Left out

- The download of an image, `Packer.toBlob` serialisation and `saveAs`: images are an oracle, and a serialisation or save error is an input to `ExportDialog.ExportModal.HandleExport`.
- Styling: spacing, fonts, sizes, image dimensions. Only the centred, bold and underlined flags are kept.
- Toasts, navigation, console logging, saving a worksheet and loading the dashboard list: I/O with no logic to verify.
- `Date.now()` ids: new section ids are parameters.
- `JsText.ToLower`, `JsText.ToUpper`: ASCII letters only, not full Unicode case mapping.
- `JsText.FromCharCode`: a code naming a lone UTF-16 surrogate yields U+FFFD, since a Dafny `char` cannot hold a surrogate.
- `JsText.IntToString`: whole numbers only. A fractional `marksPerQuestion` (such as 1.5 from the settings dialog's number input) is not modelled.
- `JsText.ParseInt`, `JsText.IntToString`: numbers are exact integers. JavaScript numbers are doubles, so the model does not round parsed values above 2^53, does not print the exponent form `toString` uses from 1e21 on, and has no Infinity (a very long digit run, which passes both checks and prints as "Infinity").
- The marks field is a number input, and the browser hands the page "" for text that is not a valid number; the model takes any string, so it also covers values the page never receives.
- `DocxExport.ImageFetcher`: a pure function of the URL, so two questions with the same URL get the same fetch outcome; the code fetches each image separately and the outcomes could differ.
- `ExportDialog.ExportModal.HandleExport`: `isExporting` is true only while the export runs; the model states only the final value.
- Concurrency: React batching and the stale list a slow delete or rename may write back.
- The `!worksheet` test in the exporter: a worksheet value is always present in the model.
- The sign-in page, image upload, the settings dialog, the FAQ page and the PDF layout.
