# CareerPilot core, modelled in Dafny

CareerPilot is a career-coaching web application. Its Python backend compares
a résumé with a job description and recommends courses. Two maintenance
scripts normalise location records and rewrite the `.env` file. The React
frontend has these parts:

- the quick-experience zone, where job descriptions are drafted with a link, text or screenshot;
- the résumé uploader;
- the course search;
- a pannable career map;
- interview practice;
- the dashboard's Markdown preview;
- the thank-you letter generator;
- the floating career guide;
- the achievement logger;
- the side-project generator;
- a survey page.

This project models the decision logic of each of these parts. One Dafny module covers each source file:

- **Pure code** becomes datatypes, functions and lemmas: keyword extraction, the gap score, location parsing, course collection, text rendering and survey collection.
- **React components**, whose state hooks change step by step, become classes. Each hook is a field, each handler is a method with a `modifies` clause, and each method's `ensures` states the whole new state.
- **Loops in the source** become `while` loops with invariants, proved against a specification function. These loops are the skill scan, the city search, the `.env` line loop, the draft update map and the survey collection.

Shared pieces live in two modules:

- `Text` covers whitespace sets, trim, split, join, substring, case mapping and decimal rendering.
- `Json` covers the JavaScript values that the frontend reads with `?.`, `||` and `.length`, and their conversion to a number in a comparison.

Network replies, the AI model, timers and the clock enter as parameters. A timer callback becomes a separate completion method.

The files:

| file | module | models |
|---|---|---|
| text.dfy | `Common`, `Text` | Option, Python `str.isspace` and JavaScript whitespace, trim/strip, split/join, slice, ASCII case mapping, decimal rendering |
| json.dfy | `Json` | JavaScript values, truthiness, optional property read, `||`, `.length`, conversion to a number |
| skill_gap.dfy | `SkillGap` | `backend/services/analysis_service.py` |
| location.dfy | `Location` | `supabase_control/update_location.py` |
| course_service.dfy | `Courses` | `backend/course_service.py` |
| env_rewrite.dfy | `EnvRewrite` | `update_env_file` in `auto_start.py` |
| quick_experience.dfy | `QuickExperience` | `frontend/src/components/QuickExperienceZone.tsx` |
| resume_uploader.dfy | `ResumeUploader` | `frontend/src/components/ResumeUploader.tsx` |
| course_search.dfy | `CourseSearch` | `frontend/src/CourseRecommendation.tsx` |
| career_map.dfy | `CareerMap` | `frontend/src/pages/CareerMap.tsx` |
| interview_prep.dfy | `InterviewPrep` | `frontend/src/pages/InterviewPrep.tsx` |
| dashboard.dfy | `Dashboard` | `frontend/src/pages/Dashboard.tsx` |
| thank_you.dfy | `ThankYou` | `frontend/src/pages/ThankYouLetter.tsx` |
| career_guide.dfy | `CareerGuide` | `frontend/src/components/CareerGuideWidget.tsx` |
| achievement_logger.dfy | `AchievementLogger` | `frontend/src/components/dashboard/AchievementLogger.tsx` |
| side_project.dfy | `SideProject` | `frontend/src/pages/SideProjectGenerator.tsx` |
| survey.dfy | `Survey` | `Survey_test/script.js` |

## Model

| member | source | states |
|---|---|---|
| Text.TrimStartShape | supabase_control/update_location.py:30 | Left trimming removes exactly the leading run of whitespace; what remains is a suffix that starts with non-whitespace. |
| Text.TrimEndShape | supabase_control/update_location.py:30 | Right trimming removes exactly the trailing run of whitespace; what remains is a prefix that ends with non-whitespace. |
| Text.TrimEnds | supabase_control/update_location.py:30 | A stripped string is empty, or it begins and ends with a non-whitespace character. |
| Text.TrimKeepsPrefix | auto_start.py:29 | Stripping keeps a prefix whose first and last characters are not whitespace, so `startswith` after `strip` still sees it. |
| Text.TrimEmptyIff | frontend/src/pages/Dashboard.tsx:88 | A string trims to empty if and only if every character in it is whitespace. |
| Text.TrimTrailingSpace | auto_start.py:29 | A whitespace character added at the end of a string does not change what it strips to. |
| Text.Split | backend/course_service.py:28 | `split(',')` always yields at least one piece. |
| Text.SplitCount | frontend/src/pages/SideProjectGenerator.tsx:26 | Splitting at a separator yields one piece more than the number of separators. |
| Text.SplitJoin | frontend/src/pages/SideProjectGenerator.tsx:26 | Joining the pieces with the separator gives back the original string. |
| Text.SplitNoSeparator | frontend/src/pages/SideProjectGenerator.tsx:26 | No piece contains the separator. |
| Text.Take | frontend/src/pages/ThankYouLetter.tsx:67 | `slice(0, n)` is a prefix of at most n characters: the whole string when it is shorter, and exactly n characters otherwise. |
| Text.Lower | backend/services/analysis_service.py:36 | `lower()` keeps the length and maps every character through the case mapping. |
| Text.Upper | backend/course_service.py:39 | `upper()` keeps the length and maps every character through the case mapping. |
| Text.NatToString | frontend/src/components/dashboard/AchievementLogger.tsx:44 | `Date.now().toString()` is a non-empty string of decimal digits. |
| Text.NatToStringInjective | frontend/src/components/dashboard/AchievementLogger.tsx:44-51 | Different clock readings give different message ids. |
| Text.ContainsMiddle | frontend/src/pages/ThankYouLetter.tsx:63-74 | A string built around an inserted value contains that value. |
| Json.Get | frontend/src/pages/SideProjectGenerator.tsx:34 | Reading a property gives the field's value for a key the object holds, and undefined for an absent key or on any value that is not an object. |
| Json.Or | frontend/src/pages/SideProjectGenerator.tsx:34 | `a \|\| b` is always one of its operands: the first when it is truthy, else the second; the result is truthy exactly when either operand is. |
| Json.PositiveLength | frontend/src/components/ResumeUploader.tsx:165 | `v?.length > 0` holds for an array or string exactly when it has an element or character, for an object exactly when it holds a "length" member that converts to a positive number (never when it has none), and never for null, undefined, numbers or booleans. |
| Json.IntReadsBack | frontend/src/components/ResumeUploader.tsx:134-135 | Converting a printed integer back to a number gives that integer: String and ToNumber are inverse on integers, so a score sent as the string "85" compares like 85. |
| Json.FalsyIsZero | frontend/src/components/ResumeUploader.tsx:134-137 | Every falsy value except undefined (null, false, 0, "") converts to 0. |
| Json.CommaIsNaN | frontend/src/components/ResumeUploader.tsx:134-135 | A string holding a comma is no numeric literal and converts to NaN, whatever surrounds the comma. |
| Json.ItemsTextIsJoin | frontend/src/CourseRecommendation.tsx:71 | An array's own text, as a comparison or a string conversion writes it, is its elements joined by "," with the same element rendering that `join(', ')` uses. |
| Json.ManyItemsNaN | frontend/src/components/ResumeUploader.tsx:134-135 | An array of two or more elements joins with a comma and so converts to NaN. |
| SkillGap.ExtractSkills | backend/services/analysis_service.py:33-42 | The loop over the skills database returns exactly the known skills that occur as whole words in the lower-cased text; no text or empty text gives the empty set. |
| SkillGap.ReactiveIsNotReact | backend/services/analysis_service.py:39-40 | The word-boundary pattern stops "react" from matching inside "reactive". |
| SkillGap.CaseInsensitive | backend/services/analysis_service.py:36-40 | Two texts that agree after lower-casing yield the same skills. |
| SkillGap.CapitalisedMention | backend/services/analysis_service.py:36-40 | An upper-case mention followed by a comma ("REACT, Vue") is still found. |
| SkillGap.Compare | backend/services/analysis_service.py:50-52 | Missing and matching skills partition the job's skills; matching skills are all in the résumé and missing ones are not; the score is 0..100, 0 for a job with no skills, and 100 exactly when nothing is missing. |
| SkillGap.PercentBounds | backend/services/analysis_service.py:52 | The percentage of m matched out of j lies in 0..100 and is 100 only when m equals j. |
| SkillGap.AnalyzeGapFallback | backend/services/analysis_service.py:44-59 | The fallback report compares the skills extracted from both texts. |
| SkillGap.AnalyzeGap | backend/services/analysis_service.py:63-119 | Only a missing job description, with the model loaded and the key set, is rejected as a length error; a description shorter than 10 characters goes to the keyword fallback instead. The AI result is used if and only if the model is loaded, the key is set, the description is long enough and the model replied; every other path falls back to keyword comparison. |
| Location.Collapse | supabase_control/update_location.py:29 | Replacing `\s+` with one space leaves only single spaces as whitespace, never two whitespace characters side by side, and whitespace at the start exactly where there was some. |
| Location.RemoveTags | supabase_control/update_location.py:31 | Tag removal never lengthens the text and introduces no character; text without `<` is unchanged. |
| Location.CleanText | supabase_control/update_location.py:24-32 | None stays None and the cleaned result is never the empty string. |
| Location.StripSlice | supabase_control/update_location.py:30 | `strip()` returns a contiguous slice of its input. |
| Location.StripChars | supabase_control/update_location.py:30 | `strip()` introduces no character. |
| Location.CleanTextSpaces | supabase_control/update_location.py:29-31 | The only whitespace left in cleaned text is the plain space. |
| Location.CleanTextTagFree | supabase_control/update_location.py:29-32 | For text without `<`, the cleaned text still has no `<`, no leading or trailing space, and never two spaces in a row. |
| Location.CollapseChars | supabase_control/update_location.py:29 | Collapsing whitespace introduces no character other than the space. |
| Location.FirstMark | supabase_control/update_location.py:55-57 | Finds the first of 區, 鄉, 鎮 or 市, the lazy match of the district pattern. |
| Location.FirstCity | supabase_control/update_location.py:51-58 | The city found is in the list and starts the address; when none is found, no city in the list starts the address. |
| Location.ParseLocation | supabase_control/update_location.py:34-60 | parse_location returns the city and district of its specification function. |
| Location.SearchCities | supabase_control/update_location.py:51-58 | The loop returns the first city that starts the address, and the district cut from what follows it. |
| Location.CitiesHaveThreeCharacters | supabase_control/update_location.py:41-46 | Every one of the 22 city names has three characters. |
| Location.FirstCityIsOnlyCity | supabase_control/update_location.py:41-58 | When every city name has the same length, the first match is the only match, so the loop's order does not matter. |
| Location.CityIff | supabase_control/update_location.py:41-53 | The city reported is c exactly when c is a listed city that starts the stripped address. |
| Location.NoCityIff | supabase_control/update_location.py:51-58 | No city is reported exactly when no listed city starts the stripped address. |
| Location.BlankAddress | supabase_control/update_location.py:36-37 | A missing or all-whitespace address gives neither a city nor a district. |
| Location.DistrictCut | supabase_control/update_location.py:55-57 | A district is found exactly when a district mark follows the city. It is the shortest non-empty prefix of that text ending in a mark. |
| Location.DistrictShape | supabase_control/update_location.py:48-58 | A district is only ever reported together with a city, and it ends in a district mark. |
| Location.CityDistrictPrefix | supabase_control/update_location.py:39-57 | The city followed by the district is a prefix of the stripped address. |
| Location.ParseExample | supabase_control/update_location.py:34-60 | "台北市大安區復興南路一段" parses to 台北市 and 大安區. |
| Courses.Placeholder | backend/course_service.py:72-79 | The placeholder resource points to "#", comes from System, and names the keyword in its title. |
| Courses.Video | backend/course_service.py:61-69 | A search hit becomes a YouTube video whose URL is the watch prefix followed by the video id, with the hit's title. |
| Courses.Videos | backend/course_service.py:61-69 | The hits become videos in order, up to the first malformed item, where the loop's exception stops it. |
| Courses.Keywords | backend/course_service.py:24-32 | A string is split at commas and each piece stripped into a word; a list is taken as is, non-strings included; any other input gives no keywords. |
| Courses.CourseService.constructor | backend/course_service.py:6-15 | A YouTube client exists exactly when an API key is set and building the client succeeds. |
| Courses.CourseService.GetRecommendations | backend/course_service.py:17-81 | The loop raises (None) exactly when a keyword is a truthy non-string; otherwise it returns the concatenation, in keyword order, of each keyword's contribution. |
| Courses.CourseService.CollectKeywords | backend/course_service.py:34-81 | The keyword loop stops with a raise (None) exactly when the list holds a truthy non-string; otherwise it yields each keyword's contribution in keyword order, a falsy item counting as an empty keyword. |
| Courses.CourseService.AddKeyword | backend/course_service.py:35-79 | One string keyword appends exactly its contribution to the results gathered so far: nothing for "", the featured course, the search's videos, or the placeholder. |
| Courses.AppendVideos | backend/course_service.py:61-69 | The item loop appends exactly the videos of the hits to the results gathered so far. |
| Courses.CollectAppend | backend/course_service.py:34-79 | Collecting over two keyword lists gives the two collections one after the other. |
| Courses.EmptyKeywordSkipped | backend/course_service.py:35 | An empty keyword contributes nothing, wherever it appears. |
| Courses.NlpIsFeatured | backend/course_service.py:39-48 | A keyword that mentions NLP gives exactly the featured course, whatever the client or the search does. |
| Courses.LowerCaseNlp | backend/course_service.py:39 | The NLP test is made on the upper-cased keyword, so "nlp" counts. |
| Courses.NoClientPlaceholder | backend/course_service.py:72-79 | Without a client, an ordinary keyword gives exactly one placeholder. |
| Courses.NoClientCount | backend/course_service.py:34-79 | Without a client, the number of results equals the number of non-empty keywords. |
| Courses.SearchBound | backend/course_service.py:53-71 | A search contributes at most maxResults videos, and a failed search contributes nothing. |
| Courses.ResultKinds | backend/course_service.py:34-79 | Every result is the featured course, a YouTube video or a System placeholder. |
| Courses.OtherGivesNothing | backend/course_service.py:31-32 | Input that is neither a string nor a list gives an empty list and does not raise. |
| Courses.NonStringAborts | backend/course_service.py:34-39 | A truthy non-string anywhere in a keyword list raises at `word.upper()`, outside the try, so the whole call fails and the results gathered before are lost. |
| Courses.FalsyItemSkipped | backend/course_service.py:34-35 | A falsy non-string in a keyword list is skipped: the outcome is that of the list without it. |
| Courses.StringListCollects | backend/course_service.py:29-30 | A list of strings is searched exactly like the same keywords given as a string's pieces. |
| EnvRewrite.ReplaceWhere | auto_start.py:28-33 | Every line that sets the variable is replaced by the new assignment; every other line is kept. |
| EnvRewrite.ReplaceOrAppend | auto_start.py:25-36 | Like replacing, except that when no line matched, the assignment is appended as a new last line. |
| EnvRewrite.RewriteEnvLines | auto_start.py:25-36 | update_env_file's new lines equal the rewrite specification. |
| EnvRewrite.RewriteLoop | auto_start.py:25-36 | The loop with its found flag computes replace-or-append. |
| EnvRewrite.AssignmentIsTarget | auto_start.py:29-30 | The written assignment is itself recognised as the variable's line. |
| EnvRewrite.MissingFile | auto_start.py:20-23 | A missing file gives a file that holds only the assignment. |
| EnvRewrite.ResultHasMatch | auto_start.py:28-36 | After the rewrite, some line sets the variable. |
| EnvRewrite.ReplaceOrAppendIdempotent | auto_start.py:28-36 | Replace-or-append applied twice is the same as once. |
| EnvRewrite.Idempotent | auto_start.py:28-36 | On line lists, rewriting twice with the same URL gives the lines of rewriting once. Through the file this fails when the last line lacks its newline (`TwiceAppends`). |
| EnvRewrite.RewriteShape | auto_start.py:25-36 | The rewrite keeps every other line in place; it adds at most one line, and only when no line matched. |
| EnvRewrite.AppendedAfterContent | auto_start.py:35-39 | Without a matching line, the file's text is the old text followed by the assignment. |
| EnvRewrite.UnterminatedLastLine | auto_start.py:36-39 | A last line without a newline runs into the appended assignment in the written text. |
| EnvRewrite.NotTargetByFirst | auto_start.py:29 | A line whose first character is neither whitespace nor the variable's initial is never taken for the variable. |
| EnvRewrite.FirstLineShape | auto_start.py:22-23 | The first line `readlines` cuts is non-empty, has no newline before its end, and is terminated unless it is the whole text. |
| EnvRewrite.ReadLinesShape | auto_start.py:22-23 | `readlines` loses nothing: its lines are well formed, every line but the last ends in a newline, and together they are the text. |
| EnvRewrite.ReadLinesContent | auto_start.py:22-23 | The lines `readlines` returns concatenate back to the text. |
| EnvRewrite.LinesRoundTrip | auto_start.py:22-39 | Writing a line list of that shape with `writelines` and reading it back with `readlines` gives the same lines. |
| EnvRewrite.SingleLine | auto_start.py:22-23 | A text with no newline before its end is read as one line. |
| EnvRewrite.GluedLineAppendsAgain | auto_start.py:28-39 | A non-matching last line without its newline is glued to the appended assignment; the glued line does not match, so a second run appends the assignment again. |
| EnvRewrite.TwiceAppends | auto_start.py:35-36 | Two runs on a `.env` holding "PORT=5173" with no final newline append the assignment twice. |
| EnvRewrite.GluedThenStable | auto_start.py:22-36 | After the glued first append and the second append, a third run rewrites the text to itself: the second assignment is a line of its own and is replaced by the same line. |
| EnvRewrite.ThirdRunStable | auto_start.py:22-36 | The text two runs leave from "PORT=5173" is not changed by a third run, though it keeps the assignment glued to PORT=5173. |
| EnvRewrite.Terminate | auto_start.py:35-36 | The corrected append first ends the last line with a newline when it lacks one, changing no other line. |
| EnvRewrite.TerminateContent | auto_start.py:35-39 | Terminating the last line adds a newline to the written text exactly when the last line lacked one. |
| EnvRewrite.TargetIgnoresNewline | auto_start.py:29 | A trailing newline does not change whether a line sets the variable, since `strip` removes it. |
| EnvRewrite.TerminateShape | auto_start.py:35-36 | After terminating the last line, every line is well formed and terminated, and the same lines set the variable. |
| EnvRewrite.RewriteKeepsLineList | auto_start.py:28-33 | When a line matched, the rewrite keeps a `readlines`-shaped line list. |
| EnvRewrite.AppendedLineList | auto_start.py:35-36 | When no line matched, the corrected rewrite's lines are `readlines`-shaped, no line but the last sets the variable, and the last is the assignment. |
| EnvRewrite.LastTargetFixed | auto_start.py:28-36 | A line list whose only matching line is the assignment at its end is left unchanged by the rewrite. |
| EnvRewrite.FixedIdempotent | auto_start.py:20-39 | With the corrected append, running the update twice on any file text gives the text of running it once. |
| EnvRewrite.FixedAppendContent | auto_start.py:35-39 | Without a match, the corrected text is the old text, then a newline if its last line lacked one, then the assignment. |
| EnvRewrite.ContentLastChar | auto_start.py:38-39 | The written text ends with the last character of its last line. |
| EnvRewrite.LastLineTerminated | auto_start.py:22-23 | The text ends in a newline exactly when its last line, as `readlines` cuts it, does. |
| EnvRewrite.FixedTextContent | auto_start.py:20-39 | FixedAppendContent read on the text that `readlines` split. |
| EnvRewrite.FixedAppendsOwnLine | auto_start.py:35-39 | Without a match, the corrected update writes the old text, a newline if it did not end in one, and the assignment on a line of its own. |
| QuickExperience.ResumeCheck | frontend/src/components/QuickExperienceZone.tsx:33-47 | A file is accepted exactly when it is a PDF of at most 5 MB. Otherwise the notice says not-PDF or too-large, in that order. |
| QuickExperience.EditEntry | frontend/src/components/QuickExperienceZone.tsx:52-72 | Editing keeps the draft's id. A new preview carries the fresh token, a revoked preview is the old one, and the preview changes only by being created or cleared. |
| QuickExperience.Run | frontend/src/components/QuickExperienceZone.tsx:49-75 | Running an edit over the list keeps its length, and the preview counter never decreases. |
| QuickExperience.MapDrafts | frontend/src/components/QuickExperienceZone.tsx:49-75 | The loop over the drafts computes the functional update map. |
| QuickExperience.MapUpdateAt | frontend/src/components/QuickExperienceZone.tsx:49-75 | After an update every draft keeps its id. Drafts with another id are unchanged (the map callback's other branch), and the one with the id is the edit of its old value. |
| QuickExperience.MapUpdateBelow | frontend/src/components/QuickExperienceZone.tsx:68-70 | Every preview token in use is below the counter, so revoked URLs are always ones issued before. |
| QuickExperience.UrlEdit | frontend/src/components/QuickExperienceZone.tsx:55-58 | Editing the link sets it, and sets the validity flag to whether it is a URL. |
| QuickExperience.NoImageNoEffects | frontend/src/components/QuickExperienceZone.tsx:49-75 | An edit of a field other than the screenshot creates and revokes nothing. |
| QuickExperience.OversizedScreenshot | frontend/src/components/QuickExperienceZone.tsx:63-66 | A screenshot over the limit leaves every draft unchanged, with one rejection notice per draft with the id. |
| QuickExperience.ScreenshotEdit | frontend/src/components/QuickExperienceZone.tsx:61-71 | A screenshot within the limit replaces the draft's preview: the old preview is revoked and a new one is created. |
| QuickExperience.FindFirst | frontend/src/components/QuickExperienceZone.tsx:96 | `find` returns a draft with the id when there is one, and nothing only when no draft has it. |
| QuickExperience.Without | frontend/src/components/QuickExperienceZone.tsx:98 | Filtering out an id never lengthens the list. |
| QuickExperience.WithoutSubset | frontend/src/components/QuickExperienceZone.tsx:98 | The filtered list holds exactly the drafts with a different id. |
| QuickExperience.Repeat | frontend/src/components/QuickExperienceZone.tsx:63-66 | The rejection notice is raised once per rejected draft. |
| QuickExperience.RemoveKeepsOne | frontend/src/components/QuickExperienceZone.tsx:94-99 | With distinct ids, removal drops at most one draft. |
| QuickExperience.SameMillisecondRemovesAll | frontend/src/components/QuickExperienceZone.tsx:88-98 | Two drafts added in the same millisecond share an id, and removing one removes both. |
| QuickExperience.AddKeepsIdsUnique | frontend/src/components/QuickExperienceZone.tsx:84-88 | Adding a draft at a fresh clock reading keeps the ids distinct. |
| QuickExperience.InitialHasNoPreview | frontend/src/components/QuickExperienceZone.tsx:78-82 | The list captured by the unmount effects holds no preview, so they revoke nothing. |
| QuickExperience.QuickExperienceZone.constructor | frontend/src/components/QuickExperienceZone.tsx:22-26 | The zone starts with one empty link draft, no résumé, no analysis and no notices. |
| QuickExperience.QuickExperienceZone.HandleFileUpload | frontend/src/components/QuickExperienceZone.tsx:33-47 | No file changes nothing. A rejected file adds its notice and keeps the old résumé; an accepted one replaces it and adds the success notice. |
| QuickExperience.QuickExperienceZone.UpdateJobDescription | frontend/src/components/QuickExperienceZone.tsx:49-75 | The drafts become the update map's result, the revoked URLs and notices grow by its effects, and the counter advances. |
| QuickExperience.QuickExperienceZone.TypeDescription | frontend/src/components/QuickExperienceZone.tsx:240 | Typing in the description box changes nothing, because the text is passed as the field name. |
| QuickExperience.QuickExperienceZone.AddJobDescription | frontend/src/components/QuickExperienceZone.tsx:84-92 | Below five drafts, an empty link draft with the clock reading as id is appended; at five, the list is kept and a notice raised. |
| QuickExperience.QuickExperienceZone.RemoveJobDescription | frontend/src/components/QuickExperienceZone.tsx:94-100 | The last draft is never removed. Otherwise the id's drafts go, and the first one's preview is revoked. |
| QuickExperience.QuickExperienceZone.HandleAnalyze | frontend/src/components/QuickExperienceZone.tsx:102-107 | Without a résumé, a notice is raised and analysis does not start; with one, analysis starts. |
| QuickExperience.QuickExperienceZone.FinishAnalyze | frontend/src/components/QuickExperienceZone.tsx:109-111 | The timer ends the analysis and raises the done notice. |
| QuickExperience.QuickExperienceZone.Unmount | frontend/src/components/QuickExperienceZone.tsx:78-82 | Both cleanup effects (the second at lines 123-127) revoke the previews of the list captured at mount, not those of the current list. |
| QuickExperience.DescriptionBoxAsWritten | frontend/src/components/QuickExperienceZone.tsx:240 | As written, a keystroke updates a field named after the typed text to undefined: nothing changes and nothing is rejected. |
| QuickExperience.DescriptionBoxCorrected | frontend/src/components/QuickExperienceZone.tsx:49-72 | Passing "content" and the text stores the typed text in the draft with the id and changes nothing else. |
| ResumeUploader.Classify | frontend/src/components/ResumeUploader.tsx:86-120 | Nothing is rendered exactly when the suggestion is falsy, and the error box exactly when it has a truthy error. A string is shown raw; anything else is rendered as structured sections, each destructuring default replacing undefined only. |
| ResumeUploader.Score | frontend/src/components/ResumeUploader.tsx:134-137 | `\|\| 0` matters only for a missing score: every other score compares as its ToNumber conversion, since each other falsy value converts to 0 anyway. |
| ResumeUploader.BandOf | frontend/src/components/ResumeUploader.tsx:134-135 | The green band is exactly a number of 80 or more (+Infinity included), the yellow band exactly 60 up to but excluding 80; NaN, -Infinity and anything below 60 are red. |
| ResumeUploader.SectionsOf | frontend/src/components/ResumeUploader.tsx:148-237 | The render throws exactly when a list passes its length test without being an array (strengths, weaknesses, the three recommendation lists, a job's missing skills) or a recommendation list holds a null or undefined element; otherwise each section is shown exactly when its list is a non-empty array. |
| ResumeUploader.NonArrayListCrashes | frontend/src/components/ResumeUploader.tsx:165-172 | A non-empty string, or an object whose "length" member is 1, given as the job recommendations passes the length test, and `.map` on it crashes the render. |
| ResumeUploader.LengthlessObjectHidden | frontend/src/components/ResumeUploader.tsx:165 | An object without a "length" member fails the length test, and its section is hidden without a crash. |
| ResumeUploader.WellShapedRenders | frontend/src/components/ResumeUploader.tsx:148-237 | A suggestion in the service's shape (array lists of objects, array or missing skill lists) always renders, and the job section shows exactly when there is a job. |
| ResumeUploader.Uploader.constructor | frontend/src/components/ResumeUploader.tsx:11-14 | No file, not dragging, no result, not loading, no alerts. |
| ResumeUploader.Uploader.HandleFileChange | frontend/src/components/ResumeUploader.tsx:18-24 | A chosen file replaces the file and clears the result; no file changes nothing. |
| ResumeUploader.Uploader.HandleDragOver | frontend/src/components/ResumeUploader.tsx:26-29 | Dragging starts and nothing else changes. |
| ResumeUploader.Uploader.HandleDragLeave | frontend/src/components/ResumeUploader.tsx:31-33 | Dragging ends and nothing else changes. |
| ResumeUploader.Uploader.HandleDrop | frontend/src/components/ResumeUploader.tsx:35-43 | Dragging ends; a dropped file replaces the file and clears the result. |
| ResumeUploader.Uploader.Remove | frontend/src/components/ResumeUploader.tsx:338-342 | The remove button clears both the file and the result. |
| ResumeUploader.Uploader.BeginAnalyze | frontend/src/components/ResumeUploader.tsx:49-53 | Analysis starts exactly when a file is selected, setting loading and clearing the result. |
| ResumeUploader.Uploader.ClickAnalyze | frontend/src/components/ResumeUploader.tsx:352-353 | A click starts a request exactly when the button is enabled (a file and nothing loading); the request it starts disables the button, so a second click sends nothing. |
| ResumeUploader.Uploader.CompleteAnalyze | frontend/src/components/ResumeUploader.tsx:66-81 | An ok reply becomes the result. A non-ok reply alerts its error or "未知錯誤", except that a null body throws on `data.error` and the catch alerts the TypeError. A failure alerts its message. The result is kept on every error path and loading always ends. |
| ResumeUploader.AnalyzeRun | frontend/src/components/ResumeUploader.tsx:49-82 | After a whole request, loading is off; the result is the reply on success and empty otherwise, since the start cleared it. |
| ResumeUploader.ErrorBeforeStructure | frontend/src/components/ResumeUploader.tsx:91 | A suggestion with an error field shows the error even when it has other fields. |
| ResumeUploader.StringIsRaw | frontend/src/components/ResumeUploader.tsx:104-111 | A string suggestion is shown as raw text. |
| ResumeUploader.EmptyObjectDefaults | frontend/src/components/ResumeUploader.tsx:115-137 | An empty suggestion object takes every destructuring default and renders with score 0, in the red band, and no recommendation section. |
| ResumeUploader.NullAnalysisScoresZero | frontend/src/components/ResumeUploader.tsx:115-137 | An explicit null analysis escapes the default (it applies to undefined only), yet the optional chain still scores it 0. |
| ResumeUploader.BandBoundaries | frontend/src/components/ResumeUploader.tsx:134-135 | 80 is green and 79 yellow; 60 is yellow and 59 red; NaN and -Infinity are red and +Infinity green. |
| ResumeUploader.NumericStringScore | frontend/src/components/ResumeUploader.tsx:134-135 | A score sent as a decimal string scores as the integer it spells. |
| ResumeUploader.SingletonArrayScore | frontend/src/components/ResumeUploader.tsx:134-135 | A one-element array holding a number scores as that number. |
| ResumeUploader.ListScoreIsLow | frontend/src/components/ResumeUploader.tsx:134-135 | An array of two or more scores is NaN and shown red. |
| ResumeUploader.PaddedStringScore | frontend/src/components/ResumeUploader.tsx:134-135 | " 85 " is trimmed, reads as 85 and is green. |
| ResumeUploader.FractionScore | frontend/src/components/ResumeUploader.tsx:134-135 | "79.5" is yellow: a fraction is banded by its floor. |
| ResumeUploader.NegativeFractionScore | frontend/src/components/ResumeUploader.tsx:134-135 | "-0.5" has the floor -1, below zero. |
| ResumeUploader.WordScores | frontend/src/components/ResumeUploader.tsx:134-135 | "Infinity" is green and a word such as "abc" is NaN and red. |
| CourseSearch.CourseRecommendation.constructor | frontend/src/CourseRecommendation.tsx:20-23 | Empty query, no courses, not loading, no search made yet. |
| CourseSearch.CourseRecommendation.HandleManualSearch | frontend/src/CourseRecommendation.tsx:44-53 | A blank query does nothing; otherwise the fetched result becomes the courses and the search counts as made. |
| CourseSearch.CourseRecommendation.InitAutoSearch | frontend/src/CourseRecommendation.tsx:57-94 | Without incoming keywords nothing happens. Otherwise the query shows them joined, the courses are the flattened per-keyword results, and loading ends. |
| CourseSearch.FlatAppend | frontend/src/CourseRecommendation.tsx:85 | Flattening distributes over concatenation. |
| CourseSearch.FlatLength | frontend/src/CourseRecommendation.tsx:85 | The flattened list's length is the sum of the parts' sizes. |
| CourseSearch.FlatOfLists | frontend/src/CourseRecommendation.tsx:85 | Each list part appears whole and in place in the flattened result. |
| CourseSearch.FailureContributesNothing | frontend/src/CourseRecommendation.tsx:28-41 | A keyword whose request throws, or whose reply status is not "success", contributes nothing, and the other keywords' courses stay in place. |
| CourseSearch.SuccessContributesData | frontend/src/CourseRecommendation.tsx:36 | A successful reply whose data is a list contributes exactly that list, in place among the other keywords' courses. |
| CourseSearch.EmptyListStillSearches | frontend/src/CourseRecommendation.tsx:59-61 | The request is the keyword list when truthy, else the single term: an empty keyword array is truthy, so it wins over the term and still triggers a search. |
| CourseSearch.NoRequestNoSearch | frontend/src/CourseRecommendation.tsx:59-61 | Without navigation state, or with neither key, the request is falsy and nothing is searched. |
| CourseSearch.QueryJoin | frontend/src/CourseRecommendation.tsx:71 | An array of keywords shows in the box joined by ", ". |
| CareerMap.MapView.constructor | frontend/src/pages/CareerMap.tsx:116-119 | Scale 1 (100 hundredths), no pan, not panning. |
| CareerMap.MapView.ZoomIn | frontend/src/pages/CareerMap.tsx:123 | The scale grows by 0.2 up to at most 2 and stays put at 2; the pan is untouched. |
| CareerMap.MapView.ZoomOut | frontend/src/pages/CareerMap.tsx:124 | The scale shrinks by 0.2 down to at least 0.5 and stays put at 0.5. |
| CareerMap.MapView.Reset | frontend/src/pages/CareerMap.tsx:125-128 | Scale back to 1 and pan back to the origin. |
| CareerMap.MapView.MouseDown | frontend/src/pages/CareerMap.tsx:130-134 | Only the primary button starts panning, anchoring the pointer against the current pan. |
| CareerMap.MapView.MouseMove | frontend/src/pages/CareerMap.tsx:136-142 | While panning, the pan follows the pointer minus the anchor; otherwise nothing moves. |
| CareerMap.MapView.MouseUp | frontend/src/pages/CareerMap.tsx:144-146 | Panning stops and the view stays where it is. |
| CareerMap.DragThenMove | frontend/src/pages/CareerMap.tsx:130-142 | After a primary press and some moves, the view is offset by exactly the pointer's displacement since the press. |
| CareerMap.ZoomInStaysBounded | frontend/src/pages/CareerMap.tsx:123 | Any number of zoom-ins keeps the scale within 0.5..2, and eight always reach 2. |
| CareerMap.ZoomInReaches | frontend/src/pages/CareerMap.tsx:123 | Enough presses to cover the distance reach the maximum exactly. |
| CareerMap.ZoomInAtMax | frontend/src/pages/CareerMap.tsx:123 | At the maximum, zooming in changes nothing. |
| CareerMap.Connectors | frontend/src/pages/CareerMap.tsx:225-244 | There is one connector between each pair of neighbouring nodes. |
| CareerMap.ConnectorGeometry | frontend/src/pages/CareerMap.tsx:227-228 | A connector runs from the right edge of one node to the left edge of the next; it is dashed and faint exactly when it leads to a future node. |
| CareerMap.NodesDisjoint | frontend/src/pages/CareerMap.tsx:250 | Nodes laid out left to right never overlap. |
| CareerMap.SampleLines | frontend/src/pages/CareerMap.tsx:229 | In the sample path, the first connectors are solid and the ones into future roles are dashed. |
| InterviewPrep.MarkPointwise | frontend/src/pages/InterviewPrep.tsx:89-93 | Marking sets the practised flag of the questions with the id and leaves every other field and question unchanged. |
| InterviewPrep.MarkIdempotent | frontend/src/pages/InterviewPrep.tsx:89-93 | Marking twice is the same as marking once. |
| InterviewPrep.FilterMembers | frontend/src/pages/InterviewPrep.tsx:78-79 | A filtered list holds exactly the questions that pass, and is no longer than the original. |
| InterviewPrep.FilterAppend | frontend/src/pages/InterviewPrep.tsx:78-79 | Filtering distributes over concatenation. |
| InterviewPrep.PracticeCountBound | frontend/src/pages/InterviewPrep.tsx:95 | The practised count never exceeds the number of questions. |
| InterviewPrep.MarkCount | frontend/src/pages/InterviewPrep.tsx:89-95 | Marking raises the count by exactly the number of unpractised questions with the id. |
| InterviewPrep.KindsLength | frontend/src/pages/InterviewPrep.tsx:78-79 | The HR and manager lists together are as long as the whole list. |
| InterviewPrep.KindsPartition | frontend/src/pages/InterviewPrep.tsx:78-79 | The HR and manager lists together are a permutation of all questions. |
| InterviewPrep.FilterAll | frontend/src/pages/InterviewPrep.tsx:78-79 | A filter that every question passes keeps the list unchanged. |
| InterviewPrep.FilterNone | frontend/src/pages/InterviewPrep.tsx:78-79 | A filter that no question passes yields nothing. |
| InterviewPrep.FilterBlock | frontend/src/pages/InterviewPrep.tsx:78-79 | When the passing questions come first, the filter keeps exactly that many. |
| InterviewPrep.SampleHr | frontend/src/pages/InterviewPrep.tsx:45-58 | The sample bank has five HR questions. |
| InterviewPrep.SampleKinds | frontend/src/pages/InterviewPrep.tsx:45-58 | The sample bank has five HR and five manager questions. |
| InterviewPrep.SampleUnpracticed | frontend/src/pages/InterviewPrep.tsx:45-58 | No sample question starts out practised. |
| InterviewPrep.Select | frontend/src/pages/InterviewPrep.tsx:137 | Choosing a question selects it and keeps the list and the answer. |
| InterviewPrep.Back | frontend/src/pages/InterviewPrep.tsx:264-267 | Going back clears the selection and the answer and keeps the list. |
| InterviewPrep.ClickMark | frontend/src/pages/InterviewPrep.tsx:273 | The mark button keeps the selection (a stale copy) and the answer, and replaces the list by its marking: each question keeps its id and is practised exactly when it was or has the selected id. |
| InterviewPrep.RepeatedClick | frontend/src/pages/InterviewPrep.tsx:273-274 | Because the selected copy is not refreshed, the button stays enabled after a click, and a second click changes nothing. |
| Dashboard.HasJdIff | frontend/src/pages/Dashboard.tsx:88 | A job description counts as present exactly when it has a non-whitespace character. |
| Dashboard.LineEnd | frontend/src/pages/Dashboard.tsx:93-96 | The first line ends at a line terminator or at the end of the text. |
| Dashboard.LineEndFirst | frontend/src/pages/Dashboard.tsx:93-96 | No line terminator occurs before the end of the first line. |
| Dashboard.FirstLine | frontend/src/pages/Dashboard.tsx:93-96 | The first line is a single line. |
| Dashboard.LineHtml | frontend/src/pages/Dashboard.tsx:93-96 | Each line becomes an h3, h2, h1 or list item according to its first marker, tried in that order, or stays as it is. |
| Dashboard.ReplaceBreaks | frontend/src/pages/Dashboard.tsx:97 | The result starts with a newline exactly when the text starts with one that is not doubled. |
| Dashboard.NoDoubleNewline | frontend/src/pages/Dashboard.tsx:97 | After the break replacement no two newlines are adjacent. |
| Dashboard.BreaksIdentity | frontend/src/pages/Dashboard.tsx:97 | Text without a double newline passes the break replacement unchanged. |
| Dashboard.MapLinesCompose | frontend/src/pages/Dashboard.tsx:92-96 | Two line-by-line replacements in sequence equal one replacement by their composition, when the first keeps lines single. |
| Dashboard.ChainOnLine | frontend/src/pages/Dashboard.tsx:93-96 | Running the four rules in sequence on a line gives the first-matching-marker rendering, since a produced tag starts with `<`. |
| Dashboard.PreviewPerLine | frontend/src/pages/Dashboard.tsx:91-98 | The preview's chain of four multiline replacements equals rendering each line once, followed by the break replacement. |
| Dashboard.BareMarkersStay | frontend/src/pages/Dashboard.tsx:93-96 | A marker with no text after it is not converted. |
| Dashboard.TagLineFiresNothing | frontend/src/pages/Dashboard.tsx:94-96 | A line that already starts with a tag fires no later rule. |
| Dashboard.RuleOpensTag | frontend/src/pages/Dashboard.tsx:93-96 | A rule that fires produces a line that starts with its tag's `<`, which no marker matches. |
| Dashboard.RuleKeepsLines | frontend/src/pages/Dashboard.tsx:93-96 | A rule maps a single line to a single line. |
| Dashboard.TagsAreOneLine | frontend/src/pages/Dashboard.tsx:93-96 | None of the tags inserted contains a line break. |
| Dashboard.RulesKeepLines | frontend/src/pages/Dashboard.tsx:93-96 | Every prefix of the rule chain maps a single line to a single line. |
| Dashboard.DisabledValues | frontend/src/pages/Dashboard.tsx:123 | The disabled options are exactly the locked languages while logged out. |
| Dashboard.LockedLanguages | frontend/src/pages/Dashboard.tsx:74-80 | Logged out, Japanese, German and French are disabled; logged in, none is. |
| ThankYou.EmailMentions | frontend/src/pages/ThankYouLetter.tsx:63-74 | The email names the interviewer, the position and the company, and quotes the notes' 50-character excerpt when there are notes. |
| ThankYou.ChatMentions | frontend/src/pages/ThankYouLetter.tsx:76-84 | The chat message names the interviewer, the company and the position, and quotes the notes' 30-character excerpt, or gives the fallback sentence when there are no notes. |
| ThankYou.OnlyExcerptMatters | frontend/src/pages/ThankYouLetter.tsx:67-80 | Notes that agree on their first 50 (email) or 30 (chat) characters give the same text. |
| ThankYou.TakeEmpty | frontend/src/pages/ThankYouLetter.tsx:67 | An excerpt is empty only when the notes are. |
| ThankYou.EmailNotesSentence | frontend/src/pages/ThankYouLetter.tsx:67 | The email with notes is the email without them, with the excerpt sentence inserted; it is longer by at most that sentence's length. |
| ThankYou.ThankYouLetter.constructor | frontend/src/pages/ThankYouLetter.tsx:44-51 | All fields empty, nothing generating, nothing copied. |
| ThankYou.ThankYouLetter.Edit | frontend/src/pages/ThankYouLetter.tsx:44-47 | The inputs change and the generated texts are kept. |
| ThankYou.ThankYouLetter.BeginGenerate | frontend/src/pages/ThankYouLetter.tsx:53-59 | Generation starts exactly when the three names are non-empty, capturing the form. |
| ThankYou.ThankYouLetter.CompleteGenerate | frontend/src/pages/ThankYouLetter.tsx:62-87 | The timer writes the email and chat message for the captured form and ends generation. |
| ThankYou.ThankYouLetter.Copy | frontend/src/pages/ThankYouLetter.tsx:90-94 | The clipboard receives the chosen tab's text and that tab shows as copied. |
| ThankYou.ThankYouLetter.ClearCopied | frontend/src/pages/ThankYouLetter.tsx:95 | The copied mark clears and nothing else changes. |
| ThankYou.Generate | frontend/src/pages/ThankYouLetter.tsx:53-88 | A complete form yields both texts for it; an incomplete one changes nothing. |
| ThankYou.BlankNamesPass | frontend/src/pages/ThankYouLetter.tsx:54 | The check is for emptiness only, so names made of spaces pass. |
| ThankYou.MissingNameBlocks | frontend/src/pages/ThankYouLetter.tsx:54-57 | Any one empty name blocks generation. |
| CareerGuide.NextStep | frontend/src/components/CareerGuideWidget.tsx:60-66 | The next step is always valid: the following one, or the first after the last. |
| CareerGuide.NextTimesCycles | frontend/src/components/CareerGuideWidget.tsx:60-66 | k presses from a step land on step plus k, modulo four. |
| CareerGuide.OpenAfterPresses | frontend/src/components/CareerGuideWidget.tsx:60-66 | The panel is open after k presses exactly when it was open and the presses have not gone past the last step. |
| CareerGuide.Dots | frontend/src/components/CareerGuideWidget.tsx:125-134 | There is one dot per step. |
| CareerGuide.DotsAroundCurrent | frontend/src/components/CareerGuideWidget.tsx:125-134 | Exactly the current dot is current; the dots before it are done and the ones after it pending. |
| CareerGuide.Guide.constructor | frontend/src/components/CareerGuideWidget.tsx:46-47 | Closed, on the first step. |
| CareerGuide.Guide.CurrentGuide | frontend/src/components/CareerGuideWidget.tsx:69 | The shown step is one of the tour's steps. |
| CareerGuide.Guide.ShowAfterDelay | frontend/src/components/CareerGuideWidget.tsx:52-58 | The mount timer opens the panel on the same step. |
| CareerGuide.Guide.Next | frontend/src/components/CareerGuideWidget.tsx:60-67 | The button advances the step; on the last step it closes the panel and resets to the first. |
| CareerGuide.Guide.Close | frontend/src/components/CareerGuideWidget.tsx:102 | Closing keeps the step. |
| CareerGuide.Guide.Open | frontend/src/components/CareerGuideWidget.tsx:185 | Reopening shows the step where the tour was left. |
| CareerGuide.CloseThenOpen | frontend/src/components/CareerGuideWidget.tsx:102-185 | Closing then reopening resumes on the same step. |
| CareerGuide.StepActions | frontend/src/components/CareerGuideWidget.tsx:14-43 | The first step's button starts the tour, the last one's ends it, and the others advance. |
| AchievementLogger.ReplyQuotes | frontend/src/components/dashboard/AchievementLogger.tsx:53 | The acknowledgement quotes the first 20 characters of the achievement and depends on nothing else. |
| AchievementLogger.Exchange | frontend/src/components/dashboard/AchievementLogger.tsx:43-54 | A send adds the user's raw text named by the first clock reading, then the reply named by the second reading plus one; the ids differ whenever the clock did not run backwards. |
| AchievementLogger.ReadingsNameApart | frontend/src/components/dashboard/AchievementLogger.tsx:44-51 | A second reading no earlier than the first gives the reply an id different from the user message's. |
| AchievementLogger.ClockBackCollision | frontend/src/components/dashboard/AchievementLogger.tsx:44-51 | A clock set back by a millisecond between the two readings gives both messages the same id. |
| AchievementLogger.Logger.constructor | frontend/src/components/dashboard/AchievementLogger.tsx:30-38 | Closed, empty input, and the greeting as the only message. |
| AchievementLogger.Logger.Edit | frontend/src/components/dashboard/AchievementLogger.tsx:125 | Typing changes only the input. |
| AchievementLogger.Logger.Send | frontend/src/components/dashboard/AchievementLogger.tsx:40-58 | Blank input does nothing. Otherwise the exchange is appended to the conversation and the input is cleared. |
| AchievementLogger.Logger.KeyDown | frontend/src/components/dashboard/AchievementLogger.tsx:128-133 | Enter without Shift sends; any other key leaves the conversation alone. |
| AchievementLogger.Logger.Open | frontend/src/components/dashboard/AchievementLogger.tsx:64 | The trophy button opens the panel and keeps the conversation. |
| AchievementLogger.Logger.Close | frontend/src/components/dashboard/AchievementLogger.tsx:97 | Closing keeps the conversation and the input. |
| AchievementLogger.SendKeepsHistory | frontend/src/components/dashboard/AchievementLogger.tsx:56-57 | A send that goes through keeps every earlier message in place and adds exactly two. |
| SideProject.SkillsFromInput | frontend/src/pages/SideProjectGenerator.tsx:26 | The request holds one skill more than there are commas. No skill contains a comma, and rejoining the skills gives back the input. |
| SideProject.ResultList | frontend/src/pages/SideProjectGenerator.tsx:34 | A null body throws. Otherwise the suggestions field wins when truthy, then the body itself, then an empty list. |
| SideProject.Generator.constructor | frontend/src/pages/SideProjectGenerator.tsx:12-14 | Empty input, not loading, no suggestions. |
| SideProject.Generator.Edit | frontend/src/pages/SideProjectGenerator.tsx:12 | Typing changes only the input. |
| SideProject.Generator.BeginGenerate | frontend/src/pages/SideProjectGenerator.tsx:16-19 | Blank input sends nothing. Otherwise loading starts, old suggestions are cleared and the split skills are sent. |
| SideProject.Generator.CompleteGenerate | frontend/src/pages/SideProjectGenerator.tsx:31-46 | An array result replaces the suggestions and any other result is ignored; a failure raises the alert; loading always ends. |
| SideProject.Generate | frontend/src/pages/SideProjectGenerator.tsx:16-47 | After a request, the suggestions are the array result or none at all, and the empty-state placeholder shows. |
| SideProject.BothShapesAccepted | frontend/src/pages/SideProjectGenerator.tsx:33-34 | A wrapped list and a bare array give the same suggestions. |
| SideProject.NonArrayRefused | frontend/src/pages/SideProjectGenerator.tsx:36-40 | A wrapped value that is not an array is not taken. |
| SideProject.CardOf | frontend/src/pages/SideProjectGenerator.tsx:92-114 | A card shows the difficulty or "中等", the name or "未命名專案", the tech stack, and at most the first two key features. |
| SideProject.EmptySuggestionDefaults | frontend/src/pages/SideProjectGenerator.tsx:92-114 | A suggestion with no fields still draws a card, with both defaults and empty lists. |
| Survey.ClosingFrom | Survey_test/script.js:8 | The closing bracket found is the first `]` on the same line; when none is found, every later `]` is past a line break. |
| Survey.TopicFrom | Survey_test/script.js:8 | The topic match is the leftmost `[` that has a closing `]` on its line. |
| Survey.GetTopicFound | Survey_test/script.js:7-10 | The topic is the text strictly between the matched brackets, with no `]` or line break in it. |
| Survey.GetTopicLeftmost | Survey_test/script.js:7-10 | No earlier `[` has a closing bracket on its line. |
| Survey.GetTopicFallback | Survey_test/script.js:7-10 | "Other" is used exactly when no `[` has a closing `]` on its line. |
| Survey.TopicExample | Survey_test/script.js:6-9 | "Q2. [前端開發] 針對" gives 前端開發. |
| Survey.TopicFallback | Survey_test/script.js:9 | A title without brackets gives "Other". |
| Survey.KeptAppend | Survey_test/script.js:16-22 | Keeping the filled items distributes over concatenation. |
| Survey.KeptStep | Survey_test/script.js:16-22 | Each loop step adds the current item's part when it is kept. |
| Survey.KeptCount | Survey_test/script.js:16-22 | At most one part per item, and exactly one each when all are kept. |
| Survey.Q1PartsOrder | Survey_test/script.js:14-24 | The Q1 parts follow the rows' order, and an unfilled row contributes nothing. |
| Survey.Q1PartsCount | Survey_test/script.js:14-24 | At most one part per row, and one per row when every row is filled. |
| Survey.Q1Answer | Survey_test/script.js:14-24 | The Q1 loop's answer is the filled rows' parts joined by ", ". |
| Survey.ChoiceAnswerJoins | Survey_test/script.js:44-53 | No checked box gives the unanswered mark; otherwise the trimmed labels joined by "; ". |
| Survey.KeyInjective | Survey_test/script.js:40 | Keys of different question ids never collide when ids have no underscore. |
| Survey.Q8Answer | Survey_test/script.js:57-58 | The free-text answer is never empty: the trimmed text, or the unanswered mark. |
| Survey.Q20PartsMeaning | Survey_test/script.js:62-71 | There is one part per chosen rank, numbered by the option's position. |
| Survey.Q20KeepsPositions | Survey_test/script.js:62-71 | Skipped options keep later options' numbers: "1.Financial, 3.Culture". |
| Survey.SimpleQuestionsDistinct | Survey_test/script.js:28-32 | The simple question ids have no underscore and differ from Q1, Q8 and Q20. |
| Survey.CollectChoices | Survey_test/script.js:34-54 | The forEach loop stores, question by question, exactly what Stored describes: each present question's answer under its key, the Q1 answer kept, and no key beyond the earlier ones and the present questions' keys. |
| Survey.ChoiceKeysMembers | Survey_test/script.js:34-54 | A key is among the gathered keys exactly when it is the key of a listed question present on the page. |
| Survey.StoredKeys | Survey_test/script.js:34-54 | After the loop the keys are the initial keys plus exactly the present questions' keys. |
| Survey.StoredKeepsQ1 | Survey_test/script.js:34-54 | No choice question overwrites the language answer. |
| Survey.StoredAnswers | Survey_test/script.js:34-54 | Every present question ends with its own answer under its key; a later question never overwrites it. |
| Survey.StoreKeepsChoices | Survey_test/script.js:24-71 | Storing under another question's key keeps the choice answers. |
| Survey.Collect | Survey_test/script.js:1-71 | The collected data holds the Q1, Q8 and Q20 answers and every present choice question's answer under its key, and no other key. |

## Left out

- The network, the database and the AI calls are not modelled. These are the Gemini analysis, the YouTube search, the Supabase update and every `fetch`. Their results enter as parameters (`ai`, `search`, `Reply`, `Outcome`), and how a reply is produced is outside the model.
- The reading and writing of `.env`, and the database loop in `main()` of `update_location.py`, are file and database I/O. The model works on the file's text, its lines, and one address.
- Timers are not modelled as time. Each `setTimeout` callback becomes a completion method (`FinishAnalyze`, `CompleteGenerate`, `ClearCopied`, `ShowAfterDelay`), and the caller decides when it runs.
- `Promise.all` in the course search runs its requests concurrently. The model takes the replies as a list in keyword order, which is the order in which `Promise.all` returns them.
- SkillGap.Compare: the score uses integer floor division `(100 * m) / j`. The source computes `int((m / j) * 100)` in floating point, which agrees for every m ≤ j ≤ 30, and the skills database has 30 entries.
- CareerMap.MapView.ZoomIn: the scale is kept in hundredths (0.2 is 20), so floating-point rounding of repeated 0.2 steps is not modelled.
- CareerMap.MapView.ZoomOut: kept in hundredths like ZoomIn, so the rounding of repeated 0.2 steps down to 0.5 is not modelled either.
- CareerMap.ZoomInReaches: in hundredths five presses take the scale from 1 to 2; in JavaScript's floating point the fifth press gives 1.9999999999999998, and a sixth press is needed to reach 2.
- The file size shown in kilobytes, and the other display-only formatting, are not modelled.
- The link check in the quick-experience zone is a regular expression. It is the parameter `urlOk`.
- Text.Lower: case mapping covers ASCII letters only. Python's `lower()` also maps other scripts.
- Text.Upper: case mapping covers ASCII letters only. Python's `upper()` also maps other scripts (and can lengthen a string, as "ß" becomes "SS").
- Text.Take: `slice` counts code points here, whereas JavaScript counts UTF-16 code units. Text outside the Basic Multilingual Plane is cut differently.
- Toasts, `console` output and the ThankYou toast messages are not modelled. Alerts and notices that decide behaviour are modelled as logs (`notices`, `alerts`).
- Rendering is not modelled: layout, animation, the map's hover tooltip, guide icons and descriptions, and the framer-motion drag of the guide widget.
- `handleRegenerate` in the interview page only shows a toast, and the dashboard's PDF export calls a browser library. Neither is modelled.
- The side-project page sends on Enter even while a request is loading, because the key handler does not check `loading`. The model's `BeginGenerate` takes no loading guard either, and overlapping requests are not modelled.
- The survey's `JSON.stringify` output and the DOM queries are not modelled. The form's contents enter as rows, containers and values.
- QuickExperience.Fits: an edit whose value type does not fit its field is excluded. The component's TypeScript types exclude it too, except for the description box.
- QuickExperience.QuickExperienceZone.TypeDescription: requires the typed text not to be a draft property name. Typing such a name (such as "url") into the description box would write undefined into that property, which is not modelled.
- QuickExperience.DescriptionBoxAsWritten: requires the typed text not to be a draft property name, for the same reason as TypeDescription.
- QuickExperience.RemoveKeepsOne: this holds only when ids are distinct. `SameMillisecondRemovesAll` shows the case where they are not.

- ResumeUploader.Score: JSON numbers are integers in `Json.Value`, so a fractional score sent as a number (79.5) is not represented. A decimal string is compared by its exact value, floored; JavaScript first rounds it to the nearest double. A string with 17 or more significant digits within half an ulp of 60 or 80 therefore lands in another band: "79.99999999999999999" is green in JavaScript and orange here, "59.99999999999999999" orange there and red here. String scores in exponent form ("8e1") or with a 0x, 0o or 0b prefix read as NaN here, whereas JavaScript converts them.
- ResumeUploader.Uploader.CompleteAnalyze: the TypeError message for a null body is V8's wording; other engines word it differently.
- EnvRewrite.ReadLines: the text is the file as Python's universal-newline mode presents it. The translation of `\r` and `\r\n` on reading, and of `\n` to the platform's line separator on writing, is not modelled.
- Courses.Item: a non-string keyword is modelled by its truthiness alone. Every truthy one raises: an int, a list or a dict has no `upper`, and the result of `bytes.upper()` fails the `in` test against a str. The searches made for earlier keywords before the raise are network calls and are not modelled.
- Json.PositiveLength: a finite number is held by its floor, so a "length" member that converts to a fraction strictly between 0 and 1 (a string such as "0.5"; JSON numbers are integers here) fails the test here but passes in JavaScript.
- ResumeUploader.SectionsOf: of the per-element rendering only null or undefined recommendation items are modelled; an object where text is rendered (a `title` that is an object, an object among the strengths) makes React throw, and the model still shows the section.

## Findings

| source | as written | input that shows it | evidently intended | confidence | as-written member | corrected member |
|---|---|---|---|---|---|---|
| frontend/src/components/QuickExperienceZone.tsx:240 | The description box calls the update with the typed text as the field name and no value. | Typing "abc" into a text draft updates a property named "abc" to undefined. The draft's content stays as it was, so the box never shows what was typed. | Update the "content" field with the typed text. | not executed | QuickExperience.DescriptionBoxAsWritten | QuickExperience.DescriptionBoxCorrected |
| auto_start.py:35-36 | When no line sets the variable, the assignment is appended as a new list element, whatever the old last line looks like. | A `.env` holding "PORT=5173" with no final newline. The first run writes "PORT=5173VITE_API_URL=…" on one line; the second run finds no line starting with the variable and appends the assignment again. From then on the text is stable (the appended line is replaced by itself), but the first assignment stays glued to PORT=5173. | End the last line with a newline before appending, so the assignment has a line of its own and a second run changes nothing. | not executed | EnvRewrite.TwiceAppends | EnvRewrite.FixedIdempotent |
