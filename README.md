# Genius Resume Builder: a verified model of its core

Genius Resume Builder is a browser app for writing academic CVs. The user
keeps a list of CVs, edits a CV's entries in a form, asks an AI service to
improve pieces of text, and previews and exports the result. This project
models the app's data-handling core in Dafny and proves what the code
promises about it:

- **The word diff** (`diff_viewer.dfy`). It shows the original and enhanced
  texts side by side. Both texts are split at runs of whitespace. Two cursors
  walk the word lists, and on a mismatch the diff looks ahead three words in
  the enhanced text, then three in the original, to resynchronise.
  `RenderDiff` keeps the loop structure of the code: the outer `while`, the
  lookahead loops with `break` and the `foundMatch` flag. It is proved equal to
  the specification function `Diff`, which is built from one pass of the walk,
  `StepAt`. The mismatch branch is a method of its own, `Resynchronise`, so
  that each loop is proved separately.
- **The saved-CV list** (`app.dfy`). Saving replaces the CV at the first index
  holding its id, or appends the CV. Deleting filters the list by id.
- **The editor** (`editor.dfy`). This covers:
  - adding, removing and updating education, experience and skill entries;
  - parsing the field keys that route AI text to the summary or to an entry;
  - applying AI suggestions and generated content;
  - the AI-mode switch.
- **The dashboard search** (`dashboard.dfy`). It is a case-insensitive
  substring match over title and full name.
- **Preview text shaping** (`preview.dfy`). This covers:
  - the PDF file name;
  - summary bullets and description lines;
  - the "Present" end-date label;
  - the skill-level names.
- **The section guide** (`section_guide.dfy`). This covers its expand/collapse
  toggle and the mapping from a guide section to an editor tab.

Support modules:

- `text.dfy` models the JavaScript string operations the code relies on:
  - `trim`;
  - `split` on a string separator;
  - `split(/\s+/)`;
  - `toLowerCase`;
  - `includes`.
- `lists.dfy` holds the array operations: filtering, removing by key and
  mapping by key.
- `cv.dfy` holds the record types.

Modelling choices:

- Fresh ids from `uuidv4()` are parameters.
- The AI service's answer is an input.
- Each event handler is one atomic update of a class holding the component's
  state.

### Empty texts in the diff

One could expect that an empty text has no words, so that two empty texts
give an empty diff. The code does not do that. `"".split(/\s+/)` is `[""]`:
one empty word. Two empty texts therefore give one kept span holding two empty
words. The model follows the code. `DiffViewer.EmptyTextsOneSpan` states this
result.

### The entry-key quirk

AI text for an entry is routed by the key `education-<id>` or
`experience-<id>`, and the id is read back with `key.split("-")[1]`. That is
only the text up to the id's first hyphen. The ids come from `uuidv4()`, and
every uuid contains hyphens. So the id read back names no entry, and applying
the text changes nothing.

The model keeps this behaviour. `Editor.EducationKeyRoundTrip` proves the key
leads back to its entry exactly when the id has no hyphen.
`Editor.HyphenatedEducationKeyMisses` proves the update is a no-op when all ids
are hyphenated. The experience lemmas state the same for experience entries.

## Model

| member | source | states |
|---|---|---|
| DiffViewer.View | src/components/DiffViewer.tsx:8-11 | the component splits both texts at whitespace runs and its spans are `Diff` of the two word lists; the original side of the spans is the original word list and the enhanced side is the enhanced word list |
| DiffViewer.Diff | src/components/DiffViewer.tsx:14-101 | the reference walk, repeating one pass from both cursors at 0 until both lists are exhausted: its kept and removed spans spell out the original words in order, its kept and added spans spell out the enhanced words in order, and every kept span pairs words equal up to case |
| DiffViewer.RenderDiff | src/components/DiffViewer.tsx:14-101 | the two-cursor loop returns exactly `Diff(o, e)`; its kept and removed spans spell out `o` in order, its kept and added spans spell out `e` in order; span count plus kept count equals the total word count |
| DiffViewer.Resynchronise | src/components/DiffViewer.tsx:41-97 | the mismatch branch: the enhanced-window loop with `break`, then the original-window loop, then the replacement; it appends exactly the spans of one pass of the walk and leaves the cursors where that pass ends |
| DiffViewer.StepAt | src/components/DiffViewer.tsx:19-98 | every pass of the walk keeps both cursors in range and strictly advances at least one of them, so the loop terminates |
| DiffViewer.FirstMatch | src/components/DiffViewer.tsx:47-61 | the lookahead returns the smallest index in the window whose word matches, ignoring case, or nothing when no word in the window matches |
| DiffViewer.DiffSides | src/components/DiffViewer.tsx:19-98 | from any cursors, the original words of kept and removed spans are exactly the rest of the original list and the displayed words of kept and added spans are exactly the rest of the enhanced list, in order |
| DiffViewer.StepSides | src/components/DiffViewer.tsx:19-98 | one pass accounts for exactly the words its cursors move over, and keeps only matching pairs |
| DiffViewer.SpanCount | src/components/DiffViewer.tsx:22-95 | number of spans = original words + enhanced words − kept spans; hence at most the sum and at least the longer side |
| DiffViewer.KeptWordsMatch | src/components/DiffViewer.tsx:36-38 | every kept span pairs two words equal after `toLowerCase` |
| DiffViewer.EnhancedWindowFirst | src/components/DiffViewer.tsx:47-61 | on a mismatch, if the first matching enhanced word within the next three is at k, then `e[j..k)` are emitted as added and the next span keeps `o[i]` with `e[k]`; the enhanced window wins even when the original window also holds a match |
| DiffViewer.OriginalWindowNext | src/components/DiffViewer.tsx:64-79 | on a mismatch with no match in the enhanced window, if the first matching original word within the next three is at k, then `o[i..k)` are emitted as removed and the next span keeps `o[k]` with `e[j]` |
| DiffViewer.NoMatchReplaces | src/components/DiffViewer.tsx:83-96 | with no match in either window, exactly one removal of `o[i]` then one addition of `e[j]` are emitted and both cursors advance by one |
| DiffViewer.MatchingWordsAllKept | src/components/DiffViewer.tsx:36-40 | word lists that agree word by word, ignoring case, give only kept spans, one per word pair |
| DiffViewer.IdenticalAllKept | src/components/DiffViewer.tsx:36-40 | a word list diffed against itself gives one kept span per word, displaying that word |
| DiffViewer.EmptyTextsOneSpan | src/components/DiffViewer.tsx:10-11 | two empty texts give a single kept span of two empty words, because splitting an empty text yields one empty word |
| Text.Words | src/components/DiffViewer.tsx:10-11 | `split(/\s+/)`: at least one word; no word contains whitespace; the first word is empty exactly when the text is empty or starts with whitespace; only the first and last words can be empty; where the text is cut is fixed by `WordsJoin` |
| Text.WordsJoin | src/components/DiffViewer.tsx:10-11 | the words joined by single spaces are the text with each whitespace run collapsed to one space; with no word holding whitespace, this says each whitespace run separates two words and nothing else does |
| Text.WordsKeepText | src/components/DiffViewer.tsx:10-11 | the words glued together are exactly the text's non-whitespace characters in order |
| Text.WordsOfWord | src/components/DiffViewer.tsx:10-11 | a text without whitespace is a single word |
| Text.Trim | src/components/Preview.tsx:155 | `trim`: the result is a slice of the input with only whitespace cut from either end, has no whitespace at either end, is empty exactly when the input is all whitespace, and leaves a trimmed string alone |
| Text.Split | src/components/Preview.tsx:154 | `split` on a literal separator, cutting at the leftmost occurrence and resuming after it, gives at least one piece; `SplitJoin` and `SplitCount` state what the pieces are |
| Text.SplitJoin | src/components/CVEditor.tsx:248 | `split` loses nothing: joining the pieces with the separator gives back the string |
| Text.SplitCount | src/components/CVEditor.tsx:292 | `split` gives one piece more than the non-overlapping occurrences of the separator |
| Text.SplitCharPieces | src/components/CVEditor.tsx:248 | no piece of a split at a character contains that character |
| Text.LowerChars | src/components/Dashboard.tsx:29-31 | `toLowerCase` keeps the length, leaves no capital letter, keeps every other character, and turns each capital into its small letter |
| Text.ReplaceSpaces | src/components/Preview.tsx:22 | `replace(/\s/g, c)` keeps the length, writes `c` for each whitespace character and keeps every other one; with `c` not whitespace, no whitespace is left |
| App.FindIndex | src/App.tsx:24 | `findIndex`: the first index holding the id, or -1 exactly when no CV has it |
| App.Upserted | src/App.tsx:22-34 | with the id present, the CV at its first index is replaced and the length is kept; otherwise the CV is appended; every other position is unchanged and the CV is in the result |
| App.UpsertKeepsIdsUnique | src/App.tsx:24-33 | if ids are unique before saving, they are unique after |
| App.UpsertIdempotent | src/App.tsx:22-34 | saving the same CV twice equals saving it once |
| App.Deleted | src/App.tsx:39 | exactly the CVs with another id remain, in order and with their multiplicities; an absent id leaves the list unchanged |
| App.DeleteIdempotent | src/App.tsx:39 | deleting twice equals deleting once |
| App.DeleteAfterSave | src/App.tsx:22-40 | deleting a just-saved CV's id gives the same list as deleting it before the save |
| App.CvStore.constructor | src/App.tsx:11-14 | the store starts from the given list |
| App.CvStore.SaveCV | src/App.tsx:22-35 | copies the list, assigns at the first index holding the id or appends, and the new list is `Upserted` of the old |
| App.CvStore.DeleteCV | src/App.tsx:38-40 | the new list is `Deleted` of the old |
| Lists.WithoutKey | src/components/CVEditor.tsx:124-126 | filtering out a key keeps exactly the elements with another key, in order and with their multiplicities, and changes nothing when no element has the key |
| Lists.Filter | src/App.tsx:39 | `filter` is never longer, holds exactly the elements of the input that pass the test, and is the input itself when every element passes |
| Lists.UpdateWhereKey | src/components/CVEditor.tsx:165-167 | the `map` by id keeps the length and the order; the elements with the key are replaced by the update applied to them, and every other element is kept |
| Lists.FilterExact | src/components/Dashboard.tsx:27-33 | `filter` keeps each kept element as often as before, drops all others, and preserves order |
| Editor.EditorState.constructor | src/components/CVEditor.tsx:41-58 | the editor opens on the personal tab, one of the four tabs, with empty lists, no suggestion or enhancement open, AI mode off, and no modal or guide shown |
| Editor.EditorState.LoadExisting | src/components/CVEditor.tsx:92-107 | with an id naming a saved CV, its summary and its three entry lists are loaded; with an empty or unknown id nothing changes |
| Editor.EditorState.AddEducation | src/components/CVEditor.tsx:110-121 | appends exactly one blank education entry with the fresh id; the existing entries are unchanged |
| Editor.EditorState.RemoveEducation | src/components/CVEditor.tsx:124-126 | keeps exactly the education entries with another id, in order |
| Editor.EditorState.AddExperience | src/components/CVEditor.tsx:129-140 | appends exactly one blank experience entry with the fresh id; the existing entries are unchanged |
| Editor.EditorState.RemoveExperience | src/components/CVEditor.tsx:143-145 | keeps exactly the experience entries with another id, in order |
| Editor.EditorState.AddSkill | src/components/CVEditor.tsx:148-155 | appends exactly one skill with the fresh id, an empty name and level 3 |
| Editor.EditorState.RemoveSkill | src/components/CVEditor.tsx:158-160 | keeps exactly the skills with another id, in order |
| Editor.EditorState.UpdateEducation | src/components/CVEditor.tsx:163-169 | the new education list is `UpdatedEducation` of the old |
| Editor.EditorState.UpdateExperience | src/components/CVEditor.tsx:172-178 | the new experience list is `UpdatedExperience` of the old |
| Editor.EditorState.UpdateSkill | src/components/CVEditor.tsx:181-187 | the new skill list is `UpdatedSkills` of the old |
| Editor.WithEducationField | src/components/CVEditor.tsx:166 | the spread update sets the named field to the value; the id and every other field keep their values |
| Editor.WithExperienceField | src/components/CVEditor.tsx:175 | the spread update sets the named field to the value; the id and every other field keep their values |
| Editor.WithSkillEdit | src/components/CVEditor.tsx:184 | the spread update sets the name or the level; the id and the other property keep their values |
| Editor.UpdatedEducation | src/components/CVEditor.tsx:163-169 | length, order and ids are kept; entries with another id are unchanged; entries with the id change only in the named field; with no entry holding the id the list is unchanged |
| Editor.UpdatedExperience | src/components/CVEditor.tsx:172-178 | length, order and ids are kept; entries with another id are unchanged; entries with the id change only in the named field; with no entry holding the id the list is unchanged |
| Editor.UpdatedSkills | src/components/CVEditor.tsx:181-187 | length, order and ids are kept; only skills with the id are edited |
| Editor.EntryIdOfKey | src/components/CVEditor.tsx:248 | `key.split("-")[1]` for an entry key is the text after the prefix up to the next `-` or the end, and contains no `-` |
| Editor.KeyPieces | src/components/CVEditor.tsx:248 | an entry key splits into at least two pieces, and the second is the first piece of what follows the prefix |
| Editor.TargetOf | src/components/CVEditor.tsx:245-253 | `"summary"` targets the summary; a key starting `education-` or `experience-` targets the entry whose id `EntryIdOfKey` extracts; any other key targets nothing |
| Editor.ApplyToKey | src/components/CVEditor.tsx:245-253 | the summary becomes the text exactly for the key `"summary"`; the education list gets the text as the description of the entry named by `split("-")[1]` exactly for keys starting `education-`, and likewise the experience list for `experience-`; otherwise each part is unchanged |
| Editor.EducationKeyRoundTrip | src/components/CVEditor.tsx:830 | the key built for an education entry leads back to that entry exactly when its id has no `-` |
| Editor.ExperienceKeyRoundTrip | src/components/CVEditor.tsx:1051 | the key built for an experience entry leads back to that entry exactly when its id has no `-` |
| Editor.HyphenatedEducationKeyMisses | src/components/CVEditor.tsx:248-249 | when every education id contains `-`, text applied through any education key leaves the list unchanged |
| Editor.HyphenatedExperienceKeyMisses | src/components/CVEditor.tsx:251-252 | when every experience id contains `-`, text applied through any experience key leaves the list unchanged |
| Editor.EditorState.EnhanceWithAI | src/components/CVEditor.tsx:207-226 | blank text shows nothing; otherwise the suggestion holds the field key, the original text and the enhanced text |
| Editor.EditorState.OpenAdvancedEnhancer | src/components/CVEditor.tsx:229-239 | records the title, field key and original content |
| Editor.EditorState.ApplyToField | src/components/CVEditor.tsx:245-253 | the form after applying is `ApplyToKey` of the form before: summary, education description or experience description by key, else unchanged |
| Editor.EditorState.ApplyAISuggestion | src/components/CVEditor.tsx:242-256 | with no suggestion nothing changes; otherwise the text goes to the suggestion's field and the suggestion closes |
| Editor.EditorState.ApplyAdvancedEnhancement | src/components/CVEditor.tsx:259-275 | with no enhancement nothing changes; otherwise the text goes to the enhancement's field key and the enhancement closes |
| Editor.SkillsFromList | src/components/CVEditor.tsx:290-298 | one level-4 skill per comma-separated piece, in order, with the given fresh ids; the count is the number of commas plus one; each name is trimmed and has no comma |
| Editor.GeneratedExperienceOnlyFirst | src/components/CVEditor.tsx:283-289 | with unique ids, generated experience text becomes the first entry's description; its other fields and all other entries are unchanged |
| Editor.EditorState.ApplyGeneratedContent | src/components/CVEditor.tsx:278-301 | a generated summary replaces the summary; generated experience rewrites the first entry's description and does nothing on an empty list; generated skills replace the skill list; other kinds change nothing |
| Editor.EditorState.ToggleAIMode | src/components/CVEditor.tsx:319-325 | AI mode flips; the target-school modal opens only when switching on with no target school, otherwise its flag is untouched |
| Editor.EditorState.NavigateToSection | src/components/CVEditor.tsx:328-330 | the active tab becomes the named section |
| Editor.EditorState.OpenSectionGuide | src/components/CVEditor.tsx:353 | the section guide is shown |
| Editor.EditorState.CloseSectionGuide | src/components/CVEditor.tsx:1277 | the section guide is hidden |
| Dashboard.MatchesSearch | src/components/Dashboard.tsx:28-32 | the empty term matches every CV; a term occurring in the title or the full name as written always matches, whatever its case |
| Dashboard.FilterCVs | src/components/Dashboard.tsx:26-35 | the listed CVs are a subsequence of the saved ones, in saved order; a CV is listed iff its lower-cased title or full name contains the lower-cased term; the list is never longer |
| Dashboard.EmptySearchKeepsAll | src/components/Dashboard.tsx:28-32 | an empty term lists every saved CV |
| Dashboard.SearchIgnoresCase | src/components/Dashboard.tsx:28-32 | lower-casing the term does not change the list |
| Dashboard.SearchNarrows | src/components/Dashboard.tsx:28-32 | every CV listed for a term is also listed for any part of that term |
| Dashboard.SearchIdempotent | src/components/Dashboard.tsx:27-34 | searching the search result again with the same term changes nothing |
| Preview.PdfFilename | src/components/Preview.tsx:16-23 | the CV's full name with each whitespace character replaced by `_`, then `_CV.pdf`: no whitespace, length of the name plus 7; `undefined_CV.pdf` when no saved CV has the id |
| Preview.Bullet | src/components/Preview.tsx:157 | a non-blank sentence becomes its trimmed text, with `.` appended unless it already ends with one: non-empty, trimmed, ending in `.` |
| Preview.NonBlankPieces | src/components/Preview.tsx:154-155 | the non-blank pieces of a split, in the order of the split: each non-blank piece as often as the split yields it and no blank one; at most one more than the separators; none for a blank text |
| Preview.SummaryBullets | src/components/Preview.tsx:150-158 | the k-th bullet is `Bullet` of the k-th non-blank `". "` piece of the summary, one bullet per such piece, in source order; every bullet is non-empty, trimmed and ends with `.`; at most one more bullet than `". "` separators; no bullets for a blank summary |
| Preview.OneSentenceSummary | src/components/Preview.tsx:154-157 | a non-blank summary without `". "` gives exactly one bullet |
| Preview.DescriptionLines | src/components/Preview.tsx:176-182 | the k-th line is the trimmed k-th non-blank `\n` piece of the description, one line per such piece, in source order; every line is non-empty, trimmed and has no line break; at most one more line than line breaks; none for a blank description |
| Preview.SingleLineDescription | src/components/Preview.tsx:205-209 | a non-blank description without a line break is shown as its trimmed self |
| Preview.EndLabel | src/components/Preview.tsx:172 | the end label is `Present` exactly when the end date is empty; otherwise the date itself is formatted |
| Preview.SkillLevelLabel | src/components/Preview.tsx:369 | levels 1 to 5 are labelled Beginner, Elementary, Intermediate, Advanced, Expert in order; any other level has no label |
| Preview.SkillLevelLabelInjective | src/components/Preview.tsx:369 | two levels with the same label are the same level |
| SectionGuide.Toggled | src/components/CVSectionGuide.tsx:24-26 | the result is nothing exactly when the section was the expanded one, and otherwise that section |
| SectionGuide.ToggleTwice | src/components/CVSectionGuide.tsx:24-26 | toggling the same section twice gives that section if it was expanded, else nothing |
| SectionGuide.Guide.constructor | src/components/CVSectionGuide.tsx:20-22 | the guide opens with the summary section expanded |
| SectionGuide.Guide.ToggleSection | src/components/CVSectionGuide.tsx:24-26 | the expanded section becomes `Toggled` of the old one |
| SectionGuide.TargetTab | src/components/CVSectionGuide.tsx:291-301 | summary goes to personal; technical and research go to skills; education goes to education; every other section goes to experience; the target is always one of the editor's four tabs |
| SectionGuide.EveryTabReached | src/components/CVSectionGuide.tsx:33-190 | each of the editor's four tabs is the target of some section of the guide |
| SectionGuide.GoToSection | src/components/CVSectionGuide.tsx:28-31 | the editor shows the section's target tab and the guide closes |

## Left out

- The AI service (`src/services/AIService.ts`) is not part of this model. It is a network client. Its bullet extraction and fallback rewriting depend on full regular-expression semantics. The enhanced text it returns is an input here.
- The HTTP helper `utils/GenerateContForAi.ts` is not part of this model, for the same reason.
- The modal and static components are not modelled: AIEnhancer, AISuggestions, AIContentGenerator, JobTargetModal, TemplateSelector and QuickTips. They hold view state and fixed copy. The `isProcessingAI` spinner flag and the content-generator flag are left out with them.
- Persistence, routing and page effects are not modelled:
  - `localStorage` persistence;
  - font link injection;
  - router navigation;
  - PDF rendering;
  - the editor's submit handler, which stamps the clock time.
- Date formatting is not modelled, because it goes through `Intl` and `Date`. `Preview.EndLabel` keeps the raw date where the code formats it.
- The skill bar width is floating point and is not modelled.
- The randomised publication list and the delete animation timer are not modelled.
- Text.Lower, Text.IsSpace: `toLowerCase` and `\s` are modelled on ASCII only. Unicode case mapping and Unicode whitespace are not modelled.
- Editor.EditorState.UpdateEducation, Editor.EditorState.UpdateExperience, Editor.EditorState.UpdateSkill: the field name is an enumeration of the fields the form actually passes. An arbitrary string naming no field is not modelled. The skill level is an integer, so a `NaN` from `parseInt` is not modelled.
- Editor.EditorState.Form: of the form library's values only the summary is modelled. The AI handlers write only the summary. The load effect also writes `id`, `title`, `lastModified` and the whole `personalInfo` (src/components/CVEditor.tsx:97-100); those writes are not modelled, and `LoadExisting` loads only the summary and the three entry lists.
- Editor.EditorState.EnhanceWithAI: the fallback of `handleEnhance` that returns the input on an error is not modelled. The helper `generateContentForAi` catches every error itself and answers `"Error generating content."`, so that fallback never runs; the service's answer, error text included, is the `enhanced` input.
- Editor.EditorState: React's batched and asynchronous state updates and stale closures are not modelled. Each handler is one atomic update.
- DiffViewer.Span: the rendered markup is not modelled: the CSS classes, the React keys and the space after each word.
- DiffViewer.Resynchronise: the code writes the mismatch branch inline in the loop. Here it is a separate method with the same loops, `break` statements and flag.
