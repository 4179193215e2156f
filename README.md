# Resume builder core in Dafny

This project models the core of a browser-based resume builder. It covers four parts:

- **The store.** One in-memory resume record is changed only through a reducer. The reducer has fourteen actions: merge into the personal info, replace the summary, and add, update-by-id and delete-by-id for each of four ordered lists (experience, education, skills, projects).
- **The editing form.** It decides which action, if any, to dispatch.
- **The views.** Three page templates (classic, modern, creative) derive display text from the record.
- **Export and AI writing.** PDF export cuts the rendered page into A4 slices. A small AI writer dialog moves text between a keyword box and a result box.

Modules follow the source files:

| module | source |
|---|---|
| `ResumeTypes` | `types.ts` |
| `EntryLists` | the `map`/`filter`/`find` idioms on the id-keyed lists |
| `ResumeStore` | `contexts/ResumeContext.tsx` |
| `ResumeForm` | `components/ResumeForm.tsx` |
| `AIWriterModal` | `components/AIWriterModal.tsx` |
| `TextLines` | the `split`, `filter`, `replace` and `join` string operations used by the templates |
| `TemplateCommon` | what the three templates share |
| `ClassicTemplate`, `ModernTemplate`, `CreativeTemplate` | the three template files |
| `PdfExport` | the pagination and the `loading` flag of `App.tsx` |

Pure code is modelled as datatypes, functions and lemmas. State that the source updates in place is modelled as classes with `modifies` clauses:
- the jsPDF document, as the log of calls it receives;
- the form's `useState` cells and the store it dispatches into;
- the dialog's two cells;
- the export button's `loading` flag.

The pagination loop is an imperative `while` loop. It is proved to make exactly the calls `ExportCalls` describes, and `ExportCalls` is characterised by lemmas.

Notes on pagination and the templates:

- **Slice sizes.** The page-canvas height `pageCanvas.height` is an `unsigned long`, so each slice is the integer part of `min(sliceHeight, remainingHeight)`. That integer is also what `position` and `remainingHeight` advance by. A 1000 × 4200 canvas on A4 is therefore cut into 1414, 1414 and 1372 rows rather than 1414.29-row slices (`PdfExport.A4ThreePages`).
- **Page count.** The page count is `ceil(imgHeight / floor(sliceHeight))`, not `ceil(heightInPdf / pdfHeight)`. The two can differ: 5657 rows need five pages although `heightInPdf` is under four page heights (`PdfExport.A4TruncationAddsPage`).
- **The `default` branch.** The reducer's `default` branch cannot be reached, because the action datatype is the closed union of fourteen variants. Every action writes its own section (`ResumeStore.Reduce`).
- **The modern template's bullet.** The modern template strips a leading `â€¢` (the UTF-8 bytes of `•` read as Windows-1252) rather than `•`. A real bullet, such as the ones in the seed description, is kept in its output (`ModernTemplate.RealBulletLinesKept`). The prompt sent to the text service asks for lines starting with that same three-character marker.

## Model

| member | source | states |
|---|---|---|
| EntryLists.ReplaceById | contexts/ResumeContext.tsx:62 | same length; an entry whose id equals the payload's becomes the payload, every other entry is unchanged |
| EntryLists.RemoveById | contexts/ResumeContext.tsx:64 | no kept entry carries the id; every kept entry comes from the list; never longer |
| EntryLists.FirstIndex | components/ResumeForm.tsx:57 | none exactly when no entry carries the id; otherwise that entry's index, with no match before it |
| EntryLists.Find | components/ResumeForm.tsx:57 | none exactly when no entry carries the id; otherwise the first entry carrying it |
| EntryLists.ReplaceMissingIsIdentity | contexts/ResumeContext.tsx:62 | updating an id the list lacks leaves the list unchanged |
| EntryLists.ReplaceUniqueAt | contexts/ResumeContext.tsx:62 | with unique ids, the update is `xs[i := payload]` for the one index carrying the id |
| EntryLists.ReplaceKeepsIds | contexts/ResumeContext.tsx:62 | the update keeps every entry's id, the set of ids and their uniqueness |
| EntryLists.ReplaceKeepsId | contexts/ResumeContext.tsx:62 | after the update a given id is present exactly when it was before |
| EntryLists.RemoveDistributes | contexts/ResumeContext.tsx:64 | removal distributes over concatenation, so the kept entries keep their order |
| EntryLists.RemoveSingleton | contexts/ResumeContext.tsx:64 | a one-entry list keeps its entry exactly when the id differs |
| EntryLists.RemoveAbsentIsIdentity | contexts/ResumeContext.tsx:64 | removing an absent id leaves the list unchanged |
| EntryLists.RemoveIdempotent | contexts/ResumeContext.tsx:64 | removing twice equals removing once |
| EntryLists.RemoveUniquePresent | contexts/ResumeContext.tsx:64 | with unique ids, removing a present id gives `xs[..i] + xs[i+1..]` |
| EntryLists.RemoveUniquePresentLength | contexts/ResumeContext.tsx:64 | with unique ids, removing a present id shortens the list by exactly one |
| EntryLists.RemoveKeepsUnique | contexts/ResumeContext.tsx:64 | removal keeps ids unique |
| EntryLists.AppendFreshKeepsUnique | contexts/ResumeContext.tsx:60 | appending a fresh id keeps ids unique and makes the id present |
| EntryLists.RemoveAfterFreshAppend | contexts/ResumeContext.tsx:60-64 | appending a fresh id and then removing it restores the list |
| EntryLists.UniqueElsewhere | contexts/ResumeContext.tsx:64 | with unique ids, no other slice of the list carries entry i's id |
| ResumeStore.Merge | contexts/ResumeContext.tsx:56 | each personal key the patch carries is overwritten; every other key keeps its value |
| ResumeStore.Reduce | contexts/ResumeContext.tsx:53-86 | every action leaves the five sections other than its own unchanged |
| ResumeStore.DeleteFor | contexts/ResumeContext.tsx:63-82 | the DELETE of the same list, carrying the same id |
| ResumeStore.ReduceAddAppends | contexts/ResumeContext.tsx:59-78 | ADD makes its list one longer, earlier entries as they were and the payload last, with no id check |
| ResumeStore.ReduceAddThenDelete | contexts/ResumeContext.tsx:59-82 | an ADD with a fresh id followed by the DELETE of that id restores the whole record |
| ResumeStore.ReduceUpdateReplaces | contexts/ResumeContext.tsx:61-80 | UPDATE keeps length and order; matching entries become the payload, others stay |
| ResumeStore.ReduceUpdateMissingIsNoOp | contexts/ResumeContext.tsx:61-80 | UPDATE of an absent id changes nothing |
| ResumeStore.ReduceUpdateKeepsIds | contexts/ResumeContext.tsx:61-80 | UPDATE never changes which ids a list holds |
| ResumeStore.ReduceDeleteRemovesId | contexts/ResumeContext.tsx:63-82 | after DELETE no entry carries the id, and the list is not longer |
| ResumeStore.ReduceDeleteAbsentIsNoOp | contexts/ResumeContext.tsx:63-82 | DELETE of an absent id changes nothing |
| ResumeStore.ReduceDeleteIdempotent | contexts/ResumeContext.tsx:63-82 | DELETE twice equals DELETE once |
| ResumeStore.ReduceDeleteUniquePresent | contexts/ResumeContext.tsx:63-82 | with unique ids, DELETE drops exactly the entry at the id's index and keeps the rest in order |
| ResumeStore.ReduceDeleteUniqueLength | contexts/ResumeContext.tsx:63-82 | with unique ids, DELETE of a present id shortens its list by one |
| ResumeStore.ReducePreservesWellFormed | contexts/ResumeContext.tsx:53-86 | unique ids in every list survive every action whose ADD id is fresh |
| ResumeStore.InitialResumeData | contexts/ResumeContext.tsx:5-51 | seed record: one experience ending "Present", one education, six skills, one project, with the generated ids placed in source order |
| ResumeStore.InitialIsWellFormed | contexts/ResumeContext.tsx:16-50 | with nine distinct generated ids the seed record has unique ids |
| ResumeStore.AddToEmptyExperience | contexts/ResumeContext.tsx:59-60 | adding to an empty experience list gives exactly that entry |
| ResumeStore.DeleteFirstSkill | contexts/ResumeContext.tsx:75-76 | deleting "s1" from [s1, s2] leaves [s2] |
| ResumeForm.KindSection | components/ResumeForm.tsx:49-50 | each list kind writes one of the four list sections |
| ResumeForm.ExperienceSet | components/ResumeForm.tsx:61 | the copied entry holds the value under the chosen key; every other key keeps its value |
| ResumeForm.EducationSet | components/ResumeForm.tsx:71 | as for experience, over the education keys |
| ResumeForm.SkillSet | components/ResumeForm.tsx:81 | as for experience, over the skill keys |
| ResumeForm.ProjectSet | components/ResumeForm.tsx:91 | as for experience, over the project keys |
| ResumeForm.PersonalInfoAction | components/ResumeForm.tsx:41-43 | the patch carries exactly the one named key, with the typed value |
| ResumeForm.PersonalInfoChangeEditsOneField | components/ResumeForm.tsx:41-43 | after the dispatch, the named personal field holds the value; the other six fields and five sections are unchanged |
| ResumeForm.DynamicChangeAction | components/ResumeForm.tsx:49-97 | no action exactly when the id is absent; otherwise the UPDATE of that kind whose payload is the first matching entry with the one key set |
| ResumeForm.FirstIndexUnique | components/ResumeForm.tsx:57 | with unique ids, the first index carrying an entry's id is that entry's index |
| ResumeForm.FindUniqueAt | components/ResumeForm.tsx:57 | with unique ids, `find` for an entry's id returns that entry |
| ResumeForm.DynamicChangeEditsOneField | components/ResumeForm.tsx:57-93 | with unique ids and a key other than id, the dispatch replaces entry i by itself with that key rewritten, and changes nothing else |
| ResumeForm.ExperienceChangeEditsOne | components/ResumeForm.tsx:57-63 | the whole record after an experience change is the old one with only entry i's key rewritten |
| ResumeForm.ExperienceChangeAction | components/ResumeForm.tsx:57-63 | with unique ids, a change for entry i's id is the UPDATE of entry i with the one key set |
| ResumeForm.EducationChangeEditsOne | components/ResumeForm.tsx:67-73 | as for experience, over education |
| ResumeForm.EducationChangeAction | components/ResumeForm.tsx:67-73 | with unique ids, a change for entry i's id is the UPDATE of entry i with the one key set |
| ResumeForm.SkillChangeEditsOne | components/ResumeForm.tsx:77-83 | as for experience, over skills |
| ResumeForm.SkillChangeAction | components/ResumeForm.tsx:77-83 | with unique ids, a change for entry i's id is the UPDATE of entry i with the one key set |
| ResumeForm.ProjectChangeEditsOne | components/ResumeForm.tsx:87-93 | as for experience, over projects |
| ResumeForm.ProjectChangeAction | components/ResumeForm.tsx:87-93 | with unique ids, a change for entry i's id is the UPDATE of entry i with the one key set |
| ResumeForm.DynamicChangeMissIsNoOp | components/ResumeForm.tsx:58 | a change for an absent id leaves the store unchanged |
| ResumeForm.IdChangeTargetsNewId | components/ResumeForm.tsx:59-62 | rewriting the id key sends an UPDATE for the new id, which changes nothing when no entry holds the new id |
| ResumeForm.AddItemAction | components/ResumeForm.tsx:100-109 | an ADD of the chosen kind carrying the generated id, with every other key empty |
| ResumeForm.DeleteItemAction | components/ResumeForm.tsx:111-113 | a DELETE of the chosen kind carrying exactly the given id |
| ResumeForm.AddThenDeleteItemRestores | components/ResumeForm.tsx:100-113 | adding an item with a fresh id and then deleting that id restores the record; adding keeps ids unique |
| ResumeForm.UseAITextAction | components/ResumeForm.tsx:146-156 | no target: nothing; summary: UPDATE_SUMMARY with the text; experience: nothing exactly when the id is gone, else the first match with only its description replaced |
| ResumeForm.UseAITextEditsDescription | components/ResumeForm.tsx:151-155 | with unique ids, accepting text for entry i rewrites only that entry's description |
| ResumeForm.Form.constructor | components/ResumeForm.tsx:37-39 | modal closed, no target, not loading |
| ResumeForm.Form.HandlePersonalInfoChange | components/ResumeForm.tsx:41-43 | the store becomes the reducer applied to the one-key patch; the component state is unchanged |
| ResumeForm.Form.HandleSummaryChange | components/ResumeForm.tsx:45-47 | only the summary changes |
| ResumeForm.Form.HandleDynamicChange | components/ResumeForm.tsx:49-97 | the store becomes the dispatch of `DynamicChangeAction` (nothing dispatched leaves it as it was); only the kind's own list can change, and an id the list lacks changes nothing |
| ResumeForm.Form.AddDynamicItem | components/ResumeForm.tsx:100-109 | the store becomes the reducer applied to the blank ADD |
| ResumeForm.Form.DeleteDynamicItem | components/ResumeForm.tsx:111-113 | the store becomes the reducer applied to the DELETE |
| ResumeForm.Form.OpenAIModal | components/ResumeForm.tsx:115-118 | the target is stored and the dialog is mounted (`ModalShown`, the `isModalOpen &&` guard at line 162) |
| ResumeForm.Form.BeginGenerateAI | components/ResumeForm.tsx:120-122 | without a target, nothing starts and nothing changes; otherwise `aiIsLoading` is set |
| ResumeForm.Form.FinishGenerateAI | components/ResumeForm.tsx:120-144 | the text handed to the dialog is the service's reply, or the fixed apology when the request fails; `aiIsLoading` ends false on both paths |
| ResumeForm.Form.HandleUseAIText | components/ResumeForm.tsx:146-158 | dispatches `UseAITextAction`, then the dialog is no longer mounted; without a target nothing changes and whether it is mounted stays as it was |
| ResumeForm.Form.CloseModal | components/ResumeForm.tsx:162-166 | the dialog is no longer mounted; the target is kept |
| AIWriterModal.Modal.constructor | components/AIWriterModal.tsx:23-24 | both cells start empty |
| AIWriterModal.Modal.SetKeywords | components/AIWriterModal.tsx:68-77 | only the keywords change, and the Generate button (`disabled={isLoading \|\| !keywords}`) is then disabled, when not loading, exactly when the typed text is empty |
| AIWriterModal.Modal.BeginGenerate | components/AIWriterModal.tsx:26-28 | a request goes out exactly when the Generate button (line 77) would be enabled, when not loading, and it carries the keywords; no state changes |
| AIWriterModal.Modal.CompleteGenerate | components/AIWriterModal.tsx:28-29 | the shown text becomes the returned string; the result panel (line 97) shows and the accept button (line 120) is enabled, when not loading, exactly when that string is non-empty |
| AIWriterModal.Modal.HandleAcceptClick | components/AIWriterModal.tsx:32-37 | hands over the current text, which is non-empty whenever the accept button was enabled; then both cells are empty, both buttons disabled and the result panel hidden |
| AIWriterModal.Modal.HandleClose | components/AIWriterModal.tsx:39-44 | both cells are empty, both buttons disabled and the result panel hidden |
| AIWriterModal.GenerateThenAccept | components/AIWriterModal.tsx:26-37 | type, generate, accept: the request carries the keywords, the accepted text is the generated one, and both buttons end disabled |
| TextLines.Split | components/ResumePreview.tsx:55 | at least one piece; no piece contains the separator |
| TextLines.Join | components/CreativeTemplate.tsx:76 | a one-element list joins to that element |
| TextLines.JoinAppend | components/CreativeTemplate.tsx:76 | joining two non-empty lists puts one separator between their joins |
| TextLines.JoinSplit | components/ResumePreview.tsx:55 | joining the pieces with the separator gives the string back |
| TextLines.SplitPlain | components/ResumePreview.tsx:55 | a string without the separator splits to itself |
| TextLines.SplitPrefix | components/ResumePreview.tsx:55 | a separator-free prefix followed by the separator splits off as one piece |
| TextLines.SplitJoin | components/ResumePreview.tsx:55 | splitting a join of separator-free pieces gives the pieces back |
| TextLines.NonEmpty | components/ResumePreview.tsx:55 | only non-empty lines, and every non-empty line of the input |
| TextLines.NonEmptyAppend | components/ResumePreview.tsx:55 | dropping empty lines distributes over concatenation, so order is kept |
| TextLines.NonEmptyKeepsAll | components/ResumePreview.tsx:55 | lines none of which is empty are all kept |
| TextLines.TrimStart | components/ResumePreview.tsx:55 | a suffix of the input; everything removed is whitespace; the rest does not start with whitespace |
| TextLines.StripBullet | components/ResumePreview.tsx:55 | a line without the marker is unchanged; otherwise the marker and exactly the whitespace run after it are removed |
| TextLines.BulletLines | components/ResumePreview.tsx:55 | one item per non-empty line, in order, each stripped once; no item contains a newline |
| TextLines.BulletLinesOfJoin | components/ResumePreview.tsx:55 | non-empty lines joined by newlines read back as the same lines, each stripped |
| TextLines.ThreeLines | components/ResumePreview.tsx:55 | three non-empty newline-free lines joined by newlines read back as the three lines, each stripped once |
| TemplateCommon.DisplayName | components/ResumePreview.tsx:30 | never empty: the name, or "Your Name" when it is empty |
| TemplateCommon.DisplayTitle | components/ResumePreview.tsx:31 | never empty: the title, or "Your Title" when it is empty |
| TemplateCommon.ExperienceDates | components/ResumePreview.tsx:51 | the start date formatted by `formatDate` of lines 18-25 (empty stays empty), " - ", then "Present" verbatim, nothing for an empty end, or the formatted end |
| TemplateCommon.EducationDates | components/ResumePreview.tsx:78 | both dates formatted, empty staying empty, so "Present" goes to the formatter; two empty dates show " - " |
| TemplateCommon.ExperienceDatesUseSetDatesOnly | components/ResumePreview.tsx:51 | the formatter is consulted only for set dates, and never for "Present": formatters agreeing there give the same text |
| TemplateCommon.DatesDifferOnlyAtPresent | components/ResumePreview.tsx:78 | with the same dates, an experience and an education entry show the same text unless the end is "Present" |
| TemplateCommon.ProjectHrefInjective | components/ResumePreview.tsx:66 | distinct links give distinct `https://` targets |
| TemplateCommon.ShownSkills | components/ResumePreview.tsx:87 | exactly the skills with a non-empty name |
| TemplateCommon.ShownSkillsAppend | components/ResumePreview.tsx:87 | filtering distributes over concatenation, so list order is kept |
| TemplateCommon.SkillNames | components/CreativeTemplate.tsx:76 | one name per skill, in order |
| TemplateCommon.NamesOfShownSkills | components/CreativeTemplate.tsx:76 | filter-then-map equals map-then-filter, so all templates show the same skill names |
| TemplateCommon.SkillNamesAppend | components/CreativeTemplate.tsx:76 | taking names distributes over concatenation |
| TemplateCommon.Contacts | components/ResumePreview.tsx:33-37 | each shown item is a non-empty field from the order, with its own value |
| TemplateCommon.ContactShownIff | components/ResumePreview.tsx:33-37 | a field is shown exactly when it is in the order and non-empty |
| TemplateCommon.ContactsAppend | components/ResumePreview.tsx:33-37 | contacts distribute over the field order, so they appear in that order |
| TemplateCommon.AllContactsShown | components/ResumePreview.tsx:33-37 | with all fields set, the contacts are phone, email, location, linkedin, github |
| TemplateCommon.Render | components/ResumePreview.tsx:27-95 | name and title with their fallbacks; the contacts are exactly `Contacts` over phone, email, location, linkedin, github; the skills exactly `ShownSkills` in list order; every entry in order with its role, company, dates, bullet lines, project link text and https target, and education dates |
| TemplateCommon.RenderShowsSetContacts | components/ResumePreview.tsx:33-37 | a contact field is on the page exactly when it is set |
| TemplateCommon.RenderSkillsAppend | components/ResumePreview.tsx:86-90 | skills appended to the record show after the existing badges, filtered the same way |
| ClassicTemplate.Page | components/ResumePreview.tsx:15-95 | the experience bullets are the description's lines stripped of a leading U+2022 |
| ClassicTemplate.BulletedLinesStripped | components/ResumePreview.tsx:55 | three lines of bullet, space and text show as the three texts (the shape of the seed description) |
| ClassicTemplate.BulletThenText | components/ResumePreview.tsx:55 | bullet, space and text leave the text |
| ClassicTemplate.OnlyFirstBulletStripped | components/ResumePreview.tsx:55 | only one leading bullet is removed |
| ClassicTemplate.BlankLineKept | components/ResumePreview.tsx:55 | a whitespace-only line is kept as an item |
| ModernTemplate.Page | components/ModernTemplate.tsx:10-103 | the experience bullets are the description's lines stripped of a leading `â€¢` |
| ModernTemplate.RealBulletKept | components/ModernTemplate.tsx:82 | a line starting with U+2022 is unchanged |
| ModernTemplate.MarkerStripped | components/ModernTemplate.tsx:82 | the three-character marker and the space after it are stripped |
| ModernTemplate.RealBulletLinesKept | components/ModernTemplate.tsx:82 | the seed-shaped description shows with its bullets still in front |
| CreativeTemplate.ContactLine | components/CreativeTemplate.tsx:22-27 | all tokens non-empty; one token for a set phone and two for each set email, location or linkedin |
| CreativeTemplate.ContactLineOrder | components/CreativeTemplate.tsx:23-26 | a set phone comes first; then each set email, location and linkedin, in that order, right after its own `•` separator, with or without a phone |
| CreativeTemplate.GithubNotShown | components/CreativeTemplate.tsx:23-26 | the line does not depend on github |
| CreativeTemplate.SeparatorWithoutPhone | components/CreativeTemplate.tsx:24 | without a phone, a set email still has its separator in front |
| CreativeTemplate.FullContactLine | components/CreativeTemplate.tsx:23-26 | with all four set: phone, •, email, •, location, •, linkedin |
| CreativeTemplate.SkillsLine | components/CreativeTemplate.tsx:76 | empty with no named skill; the name alone with one |
| CreativeTemplate.SkillsLineMatchesShownSkills | components/CreativeTemplate.tsx:76 | the line joins the same skills, in the same order, as the other templates show |
| CreativeTemplate.SkillsLineAppend | components/CreativeTemplate.tsx:76 | two parts with skills join with exactly one " ・ " between them |
| CreativeTemplate.EmptySkillAddsNothing | components/CreativeTemplate.tsx:76 | an empty-named skill adds neither a name nor a separator |
| CreativeTemplate.Page | components/CreativeTemplate.tsx:17-81 | name and title with their "Your Name"/"Your Title" fallbacks; the contact line is `ContactLine` and the skills line `SkillsLine`; entries in order with role, company, experience dates ("Present" as is), U+2022 bullets stripped, both education dates formatted, and https links |
| PdfExport.PdfDocument.constructor | App.tsx:56-60 | a fresh document has received no calls |
| PdfExport.PdfDocument.AddImage | App.tsx:73 | appends one image call |
| PdfExport.PdfDocument.AddPage | App.tsx:93 | appends one page break |
| PdfExport.PdfDocument.Save | App.tsx:98 | appends the save |
| PdfExport.CanvasHeight | App.tsx:83 | a stored canvas height is the integer part of the value |
| PdfExport.Step | App.tsx:82-83 | a full slice holds at least one row: the integer part of `pdfHeight * imgWidth / pdfWidth` |
| PdfExport.CanvasHeightIsMin | App.tsx:82-83 | the stored slice height is `min(step, remainingHeight)` |
| PdfExport.DownloadPdf | App.tsx:62-98 | the calls made are exactly `ExportCalls`: one image, or the page slices with page breaks, then the save |
| PdfExport.SlicesTile | App.tsx:76-95 | the slices tile the rows with no gap or overlap; each is non-empty; the first starts at 0 and the last ends at `imgHeight` |
| PdfExport.SliceShape | App.tsx:82-91 | slice k starts at `k * step` and holds `min(step, rows left)` rows; all but the last hold exactly `step` |
| PdfExport.SliceCount | App.tsx:77-95 | the number of slices n satisfies `(n-1) * step < imgHeight <= n * step`, which is `ceil(imgHeight / step)` |
| PdfExport.RowInExactlyOneSlice | App.tsx:85-90 | every canvas row lies in exactly one slice |
| PdfExport.TopsIncrease | App.tsx:90 | slice k starts at least k rows after the first |
| PdfExport.TopsMonotone | App.tsx:90 | slice tops never decrease |
| PdfExport.PageCallsShape | App.tsx:88-94 | 2n-1 calls: slice k's image at 2k and a page break at every odd position, so pages = slices |
| PdfExport.FitsIffWithinSlice | App.tsx:72 | `heightInPdf <= pdfHeight` exactly when the canvas is at most one slice high |
| PdfExport.ShortPageStoresNoRows | App.tsx:72-91 | on a page under one canvas row high, a canvas with at least one row fails the single-page test and each pass of the loop stores a zero-height page canvas |
| PdfExport.ExportSinglePage | App.tsx:72-73 | a canvas that fits gives one image at (0,0) of size width × heightInPdf, no page break, then the save |
| PdfExport.ExportMultiPage | App.tsx:74-98 | a canvas that does not fit gives at least two slices that tile it, `ceil(imgHeight / step)` of them, then the save |
| PdfExport.PlacedHeightBounds | App.tsx:88 | a slice's placed height is at most the page height; a full slice is under one row's height short of the page |
| PdfExport.SliceFitsPage | App.tsx:82-88 | a slice of at most one step is placed no higher than the page |
| PdfExport.FullSliceFillsPage | App.tsx:82-88 | a full step is placed less than one row's height short of the page |
| PdfExport.A4ThreePages | App.tsx:82-91 | a 1000 px wide canvas on A4 gives a step of 1414; 4200 rows become 1414, 1414 and 1372 |
| PdfExport.A4TruncationAddsPage | App.tsx:82-91 | 5657 rows need five slices, the last of one row, although heightInPdf is under four pages |
| PdfExport.ExportButton.constructor | App.tsx:47 | not loading, nothing pending |
| PdfExport.ExportButton.Disabled | App.tsx:120 | the button is disabled exactly while an export is pending |
| PdfExport.ExportButton.Click | App.tsx:99-103 | an enabled click sets loading and starts one export; a disabled button ignores the click; afterwards the button is disabled |
| PdfExport.ExportButton.Settle | App.tsx:105 | the settled export, on success or failure, clears loading and re-enables the button |
| PdfExport.DoubleClick | App.tsx:120 | two clicks before the export settles start one export only |

## Left out

- Rasterisation and PDF internals are not modelled. This covers `html2canvas`, `toDataURL`, `drawImage` pixel copying, and jsPDF's own behaviour. The document is only the log of `addImage`/`addPage`/`save` calls, and `getWidth`/`getHeight` are parameters.
- Floating point is not modelled. Millimetre sizes and ratios are exact `real`s, so the rounding of IEEE doubles in `ratio`, `heightInPdf` and `sliceHeight` is not captured. `CanvasHeight` takes the integer part of the exact value.
- PdfExport.DownloadPdf requires a canvas at least one pixel wide and a page at least one canvas row high. Outside that range, a canvas with at least one row makes the source's loop store a zero-height page canvas on every pass, so it never ends (`PdfExport.ShortPageStoresNoRows` for the short page; a zero-width canvas gives an infinite `heightInPdf` and a zero `sliceHeight`). The precondition also excludes two cases that do end. A canvas with no rows and at least one column on a page under one row high gets a single image of height 0 and is saved. A 0 × 0 canvas gives a NaN `ratio`, so the test at App.tsx:72 fails, the loop runs zero times, and the document is saved with no image.
- PdfExport.CanvasHeight: values above 2147483647 are not modelled. Setting `canvas.height` converts the value with ToUint32, and a browser then replaces any value above 2^31 − 1 by the default height of 150. Canvases that tall do not arise.
- The dialog's own `if (!isOpen) return null` (components/AIWriterModal.tsx:46) is not modelled separately. The form mounts the dialog only while `isModalOpen` (`ResumeForm.Form.ModalShown`) and passes that same flag as `isOpen`, so the early return is never taken.
- The `setTimeout` scheduling and the `finally` ordering are not modelled. `PdfExport.ExportButton` models `loading` and the number of exports in flight, not time.
- The text-generation service, the API key, the prompt wording and the async/await are left out. The service's reply is a parameter: `Some(text)`, or `None` for a thrown error.
- Id generation is left out. `crypto.randomUUID()` results are parameters: `newId`, and the nine `ids` of the seed record. Freshness is a precondition where a property needs it.
- `formatDate`'s `Date` parsing and `toLocaleDateString` are a parameter `string -> string`. The templates differ in passing a short-month or a long-month formatter. Only the empty-string case is interpreted.
- The React context, provider and hooks are not modelled, and neither are the "outside provider" errors, JSX markup, CSS, icons and `components/icons/GraduationCapIcon.tsx`. A dispatch applies the reducer at once.
- ResumeForm.AddItemAction: the source's payload also carries all the keys of the other three entry kinds, set to `''`. A typed entry keeps only its own keys, so those extra properties are not modelled.
- ResumeStore.Merge: a patch key that is present but explicitly `undefined` is not modelled. The form only ever sends a one-key patch with a string value.
- JavaScript strings are UTF-16, and Dafny strings are sequences of Unicode scalar values. Every character the templates test for (newline, the bullets, the `\s` class) is in the Basic Multilingual Plane, so `split`, the anchored `replace` and `join` behave the same on both.
- The section headings, section order, list markers and other layout of the three templates are not modelled.
