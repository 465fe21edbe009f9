# TrainerFeedback core, modelled in Dafny

TrainerFeedback is a web application in which colleges run training sessions,
students rate the trainer anonymously through a feedback form, and college
administrators, trainers and a superadmin read the results on dashboards. This
project models the logic of that application that does not depend on the
browser or on the Firestore database:

- **Project codes.** A code such as `ICCS/MSC/1st/TP/25-27` is parsed, matched
  to a college, and resolved to a course name and a year. The import tab
  previews, counts and filters codes, and the service de-duplicates them before
  storing them.
- **Analytics cache.** `cacheService.js` turns a compiled session into counter
  increments and trend entries for the college and trainer cache documents.
  Months, days of the month and the merging of comments are modelled exactly;
  field names are sanitised with ASCII white space and letters only (see Left out).
- **Session statistics.** `compileSessionStats` computes per-response
  averages, rating buckets, topic counts, per-question tallies, category
  averages and the top, average and bottom comment slices.
- **Academic structure.** The college → course → year → department → batch
  tree covers the default tables of `academicConfig.js` and `academicConfig.ts`
  and their lookups, the validator and merge-on-save of `academicService.js`,
  the superadmin editor's add, remove and rename handlers, the admin editor's
  build and flatten round trip, and the automatic config update.
- **Local store and auth.** The `dataService.js` CRUD store over arrays, mock
  login, logout and roles, and the route guard's decision chain.
- **Tickets and trainers.** Ticket defaults, the status rule, overdue age,
  sorting, filtering and counts. Trainer duplicate checks, batch import,
  paging, search and the topic list.
- **Seeding.** Rating generation, academic combinations and the seed driver.
- **Dashboards.** The option lists, cascading filters, aggregated stats,
  trends and top-trainer lists of the college, superadmin and trainer views
  (the college overview's unused topTrainers memo is always empty).
- **Forms and converter.** The anonymous feedback form, the session wizard,
  the template editor, the question categories and the per-row conversion of
  `convertTrainer.py`.

Each operation is a Dafny function when the source computes a value. Where
the source updates an object in place it is a class with fields and `modifies`
clauses: the local store, the mock auth session, the import tab, the admin
academic editor, the automatic config store, the trainer store, the feedback
page, the overview tab's cache and the template editor. Loops that fill local
arrays or dictionaries are methods with loop invariants, proved against the
functions that specify them. Every operation is paired with its inverse, an invariant
it preserves, or a reference definition, and a lemma connects the two.
Firestore documents, `localStorage`, clocks and random numbers are in-memory
maps and explicit parameters.

## Model

| member | source | states |
|---|---|---|
| `ProjectCodes.Segments` | src/services/superadmin/projectCodeService.js:29 | one trimmed piece per '/'-separated piece of the code, and at least one |
| `ProjectCodes.YearOf` | src/services/superadmin/projectCodeService.js:62-65 | the year is its first run of digits when it has one, and otherwise unchanged |
| `ProjectCodes.ParseString` | src/services/superadmin/projectCodeService.js:29-76 | the raw code is kept; the status is invalid exactly when there are fewer than two segments, and then the error is "Too few segments" with no college code |
| `ProjectCodes.ParseProjectCode` | src/services/superadmin/projectCodeService.js:26-77 | a falsy code gives status invalid with "Empty code" and no raw code; a truthy value that is not a string has no `split` and throws; a string is parsed |
| `ProjectCodes.OnePieceIff` | src/services/superadmin/projectCodeService.js:29-32 | a string splits into a single piece exactly when it contains no separator |
| `ProjectCodes.InvalidIffNoSlash` | src/services/superadmin/projectCodeService.js:29-39 | a non-empty code is invalid exactly when it contains no '/' |
| `ProjectCodes.SegmentsClean` | src/services/superadmin/projectCodeService.js:29 | every segment is trimmed and contains no '/' |
| `ProjectCodes.ParsedFields` | src/services/superadmin/projectCodeService.js:48-75 | collegeCode is the first segment, course the second, academicYear the last, type the fourth or ""; the first and last are trimmed and contain no '/' |
| `ProjectCodes.TwoSegmentsCourseIsAcademicYear` | src/services/superadmin/projectCodeService.js:49-53 | with exactly two segments the course equals the academic year, and the year is "" |
| `ProjectCodes.YearIsDigitsOrWordy` | src/services/superadmin/projectCodeService.js:53-65 | the parsed year is either a non-empty run of digits or contains no digit at all |
| `ProjectCodes.SegmentsOfJoin` | src/services/superadmin/projectCodeService.js:29 | clean segments joined with '/' split and trim back to the same segments |
| `ProjectCodes.JoinThenParse` | src/services/superadmin/projectCodeService.js:26-77 | a code written from clean segments parses back to them: status parsed, college first, course second, academic year last, and the year as YearOf reads the third segment |
| `ProjectCodes.LowerKey` | src/services/superadmin/projectCodeService.js:88-89 | `collegeCode?.toLowerCase()`: undefined for null or undefined, a TypeError for a value that is not a string, otherwise the lower-cased string |
| `ProjectCodes.FirstMatch` | src/services/superadmin/projectCodeService.js:87-90 | `find` returns the first college whose code or name matches, and nothing exactly when no college matches |
| `ProjectCodes.MatchCollege` | src/services/superadmin/projectCodeService.js:84-98 | an invalid parse is unmatched with no ids; with no colleges the result is unmatched with null ids; it throws exactly when there is a college to test and the code's key throws; the parsed fields are kept |
| `ProjectCodes.MatchIff` | src/services/superadmin/projectCodeService.js:84-98 | a string code matches exactly when some college's code or name equals it ignoring case; the first such college's id is taken; collegeId is null exactly when nothing matched |
| `ProjectCodes.ResolveCourseName` | src/services/superadmin/projectCodeService.js:103-125 | without a college or with a falsy course the course is kept; only "engg" (any case) changes; it becomes "B.Tech" exactly when the configuration is readable and has a course key reading "b.tech" or "b. tech", and "B.E." otherwise (including a failed read) |
| `ProjectCodes.ResolveCourseIdempotent` | src/services/superadmin/projectCodeService.js:103-125 | resolving an already resolved course changes nothing |
| `ProjectCodes.DepartmentYears` | src/services/superadmin/projectCodeService.js:143-147 | gathering the departments' year keys fails exactly when one department is null |
| `ProjectCodes.OldWordYear` | src/services/superadmin/projectCodeService.js:157-169 | the word scan gives a valid year taken from a word the lower-cased label contains, and gives nothing exactly when no such word exists |
| `ProjectCodes.OldEarlierWordWins` | src/services/superadmin/projectCodeService.js:166-169 | the first word in the table's written order that hits decides, even when a longer, better-fitting word comes later |
| `ProjectCodes.OldResolveYear` | src/services/superadmin/projectCodeService.js:131-178 | a missing college, course or year keeps the year; an unreadable configuration, or a course without departments, keeps only the label's digits; otherwise the first of: the exact key, the first run of digits if valid, the first word hit, then the digits or the label itself |
| `ProjectCodes.CollectYears` | src/services/superadmin/projectCodeService.js:142-147 | the nested `forEach` fails exactly when a department is null, and otherwise fills the set with exactly the departments' year keys |
| `ProjectCodes.ScanWords` | src/services/superadmin/projectCodeService.js:166-170 | the `for...of` loop over the word table returns exactly OldWordYear |
| `ProjectCodes.ResolveYearAsWritten` | src/services/superadmin/projectCodeService.js:131-178 | the service's loops compute exactly OldResolveYear |
| `ProjectCodes.OldShapeYears` | src/services/superadmin/projectCodeService.js:138-147 | the old-shape B.Tech configuration has valid years 1-4 |
| `ProjectCodes.OldByWord` | src/services/superadmin/projectCodeService.js:150-169 | a label that is neither a key nor contains a digit resolves to the year of its word hit |
| `ProjectCodes.ThirdOldWord` | src/services/superadmin/projectCodeService.js:157-169 | the word scan maps "Third" to "1", because it contains "i", the third word of the table |
| `ProjectCodes.ThirdReadsAsFirst` | src/services/superadmin/projectCodeService.js:150-169 | as written, "Third" resolves to year 1 although year 3 exists |
| `ProjectCodes.NoDigitsLeft` | src/services/superadmin/projectCodeService.js:136-139 | `replace(/\D/g, '')` of a label with no digit is "" |
| `ProjectCodes.SavedShapeKeepsDigitsOnly` | src/services/superadmin/projectCodeService.js:136-139 | over a configuration whose course has no `departments` (the validated course → years shape), resolveYear only keeps the label's digits |
| `ProjectCodes.FinalYearLost` | src/services/superadmin/projectCodeService.js:139 | so "Final Year" for B.Tech on the saved configuration resolves to "" |
| `ProjectCodes.Or` | src/services/superadmin/projectCodeService.js:263-269 | `a or b` is a when a is truthy, b otherwise |
| `ProjectCodes.OrElse` | src/services/superadmin/projectCodeService.js:263-269 | `a or d` with a defined default is a's value when a is truthy, d otherwise |
| `ProjectCodes.DedupeKey` | src/services/superadmin/projectCodeService.js:202-208 | a string is its own code; an object gives `item["Project Code"] or item.code or item.rawCode`; any other value has no code |
| `ProjectCodes.Unique` | src/services/superadmin/projectCodeService.js:200-214 | the kept inputs all have truthy codes, come from the input, and are never more than the inputs |
| `ProjectCodes.CodesOf` | src/services/superadmin/projectCodeService.js:198-213 | the seen codes, one per kept input, in order |
| `ProjectCodes.UniqueCodesDistinct` | src/services/superadmin/projectCodeService.js:210-213 | no two kept inputs share a code |
| `ProjectCodes.UniqueComplete` | src/services/superadmin/projectCodeService.js:210-213 | every input with a truthy code is kept, or an input with the same code was kept before it |
| `ProjectCodes.ReadInput` | src/services/superadmin/projectCodeService.js:216-253 | a string is parsed; an object with a truthy "Project Code" becomes a parsed code built from its metadata, with that raw code |
| `ProjectCodes.ResolveYearValue` | src/services/superadmin/projectCodeService.js:131-178 | with a falsy course or year the year is kept; a year that is not a string throws (`replace` in the try, then again in the catch); otherwise it is the year as OldResolveYear resolves it |
| `ProjectCodes.ProcessItem` | src/services/superadmin/projectCodeService.js:216-279 | a processed item keeps the raw code and status it was read with; an unmatched item's course is `matched.course or rawMetadata.course or ''` |
| `ProjectCodes.Collect` | src/services/superadmin/projectCodeService.js:216-280 | a throw in any iteration aborts the call; otherwise every outcome is kept in order |
| `ProjectCodes.ToDoc` | src/services/superadmin/projectCodeService.js:296-313 | the written document takes its code from the raw code and keeps the parse and match status |
| `ProjectCodes.NewItems` | src/services/superadmin/projectCodeService.js:284-286 | the new items are exactly the processed items whose raw code is not stored, in order |
| `ProjectCodes.AddProjectCodes` | src/services/superadmin/projectCodeService.js:193-323 | the call fails exactly when processing a unique input throws; otherwise one document is written per new item, added counts them, and added + skipped equals the number of unique inputs |
| `ProjectCodes.WriteDocs` | src/services/superadmin/projectCodeService.js:291-315 | the batch writes one document per new item and counts them |
| `ProjectCodes.ProcessEach` | src/services/superadmin/projectCodeService.js:216-280 | the second loop computes exactly Collect of the per-input outcomes |
| `ProjectCodes.FirstErrorWins` | src/services/superadmin/projectCodeService.js:216-280 | the error reported is the error of the first input whose processing throws |
| `ProjectCodes.DedupeInputs` | src/services/superadmin/projectCodeService.js:196-214 | the first loop keeps exactly Unique's inputs |
| `ProjectCodes.RawCodeIsKey` | src/services/superadmin/projectCodeService.js:201-251 | a processed input with a raw code has its dedupe code as that raw code |
| `ProjectCodes.NewItemsApart` | src/services/superadmin/projectCodeService.js:286 | filtering keeps distinct raw codes distinct |
| `ProjectCodes.WrittenCodesAreNew` | src/services/superadmin/projectCodeService.js:193-318 | a successful call writes only codes that were not stored, and no raw code twice |
| `VerifyResolveYear.LongestFirstIsStableSort` | verify_resolve_year.js:60-69 | the scan order is the stable sort of the written word keys by descending length: a rearrangement of all of them, longest first, with keys of one length kept in written order |
| `VerifyResolveYear.LongestFirstNeighbours` | verify_resolve_year.js:69 | neighbouring keys of the scan order never grow in length, and neighbours of one length keep their written order |
| `VerifyResolveYear.TiesKeepOrder` | verify_resolve_year.js:69 | in a list sorted by descending length, order kept between equal-length neighbours is kept between any two keys of one length |
| `VerifyResolveYear.WordFromIff` | verify_resolve_year.js:73 | the scan finds a whole-word occurrence (`\b` on both sides, ignoring case) exactly when there is one at or after the start |
| `VerifyResolveYear.WordYear` | verify_resolve_year.js:71-77 | the first key, in scan order, that is a whole word of the label with a valid year; nothing exactly when no key qualifies |
| `VerifyResolveYear.EarlierKeyWins` | verify_resolve_year.js:68-77 | the earliest key of the scan that hits decides, so "iii" wins over "i" when both are whole words |
| `VerifyResolveYear.CourseYears` | verify_resolve_year.js:36-49 | the valid years are the keys of the course's `years` object, present only when the configuration, its courses, the course and its years are all present |
| `VerifyResolveYear.ResolveYear` | verify_resolve_year.js:29-86 | a missing college, course or year keeps the year; an unreadable configuration, or a course without years, keeps only the digits; otherwise an exact key, then a valid digit run, then the fallback of word scan, digit run, label |
| `VerifyResolveYear.ResolvedIsKeyLabelOrDigits` | verify_resolve_year.js:50-80 | whatever the route, the result is a year key of the course, the label itself, or its first run of digits |
| `VerifyResolveYear.ByFallback` | verify_resolve_year.js:58-80 | when neither the label nor its digit run is a key, the word scan and its default decide |
| `VerifyResolveYear.ByDigitRun` | verify_resolve_year.js:54-56 | when the label is not a key but its digit run is, the digit run is the year |
| `VerifyResolveYear.DigitsNotKey` | verify_resolve_year.js:54-80 | a label whose digit run is not a key is resolved by the fallback |
| `VerifyResolveYear.ScanStops` | verify_resolve_year.js:71-77 | the scan returns the year of the first key that is a whole word with a valid year |
| `VerifyResolveYear.ScanFails` | verify_resolve_year.js:71-77 | when no key with a valid year is a whole word, the scan finds nothing |
| `VerifyResolveYear.NoWordKeepsDigits` | verify_resolve_year.js:79-80 | with no key a whole word, the result is the first digit run |
| `VerifyResolveYear.MockYears` | verify_resolve_year.js:4-21 | the mock configuration gives B.Tech years 1-4 and M.Tech years 1-2 |
| `VerifyResolveYear.TestExactKey` | verify_resolve_year.js:92 | B.Tech '1' resolves to '1' |
| `VerifyResolveYear.TestFourth` | verify_resolve_year.js:93 | B.Tech '4th' resolves to '4' |
| `VerifyResolveYear.TestFinalYear` | verify_resolve_year.js:94 | B.Tech 'Final Year' resolves to '4' |
| `VerifyResolveYear.TestThird` | verify_resolve_year.js:95 | B.Tech 'Third' resolves to '3' |
| `VerifyResolveYear.TestRomanTwo` | verify_resolve_year.js:96 | B.Tech 'II' resolves to '2' |
| `VerifyResolveYear.TestYearTwo` | verify_resolve_year.js:97 | B.Tech 'Year 2' resolves to '2' |
| `VerifyResolveYear.TestRandomString` | verify_resolve_year.js:98 | B.Tech 'random string 123' resolves to '123' |
| `VerifyResolveYear.TestFirstMTech` | verify_resolve_year.js:99 | M.Tech '1st' resolves to '1' |
| `VerifyResolveYear.TestThirdMTech` | verify_resolve_year.js:100 | M.Tech '3rd' resolves to '3', although year 3 is not a key of M.Tech |
| `VerifyResolveYear.ThirdFallback` | verify_resolve_year.js:71-77 | the scan maps 'Third' to '3' by the whole word "third" |
| `VerifyResolveYear.FinalFallback` | verify_resolve_year.js:71-77 | the scan maps 'Final Year' to '4' by the whole word "final" |
| `VerifyResolveYear.RomanTwoFallback` | verify_resolve_year.js:71-77 | the scan maps 'II' to '2' |
| `VerifyResolveYear.RandomFallback` | verify_resolve_year.js:71-80 | no key is a whole word of 'random string 123', so the digit run '123' is kept |
| `VerifyResolveYear.ThirdOrdinalFallback` | verify_resolve_year.js:71-80 | over years 1-2, '3rd' has no first- or second-year word and falls back to its digits '3' |
| `VerifyResolveYear.NoKeyIsWord` | verify_resolve_year.js:71-77 | when none of the thirteen keys is a whole word of the label, the scan finds nothing, whatever the valid years |
| `VerifyResolveYear.SkipNonDigits` | verify_resolve_year.js:55 | characters that are not digits in front of a string do not change its first digit run |
| `ProjectCodesTab.StoredCodeNotFlagged` | src/pages/superadmin/components/ProjectCodesTab.jsx:70 | as written, a code that is already stored is not flagged as a duplicate when every stored document has a code, though the intended test flags it |
| `ProjectCodesTab.ReimportNotFlagged` | src/pages/superadmin/components/ProjectCodesTab.jsx:70 | re-importing the stored "ICCS/MSC/1st/TP/25-27" is not flagged as written, and is flagged by the intended test |
| `ProjectCodesTab.PreviewRow` | src/pages/superadmin/components/ProjectCodesTab.jsx:66-72 | a row is the parse-then-match result of the code, flagged exactly when the duplicate test says so; it throws exactly when the parse or the match throws |
| `ProjectCodesTab.ImportPreview` | src/pages/superadmin/components/ProjectCodesTab.jsx:63-73 | one row per imported code, in input order, each the row PreviewRow builds; the preview throws exactly when one row throws |
| `ProjectCodesTab.MatchedAreValid` | src/pages/superadmin/components/ProjectCodesTab.jsx:75-76 | only parsed rows can be matched: matchedCount never exceeds validCount |
| `ProjectCodesTab.CountsBounded` | src/pages/superadmin/components/ProjectCodesTab.jsx:75-77 | matchedCount ≤ validCount ≤ the number of rows, and newCount ≤ the number of rows |
| `ProjectCodesTab.CodeMatches` | src/pages/superadmin/components/ProjectCodesTab.jsx:84 | `pc.code.toLowerCase()` throws exactly when the code is not a string |
| `ProjectCodesTab.NameMatches` | src/pages/superadmin/components/ProjectCodesTab.jsx:85 | `pc.collegeName?.toLowerCase()` throws exactly when the name is neither missing, null nor a string |
| `ProjectCodesTab.SearchHit` | src/pages/superadmin/components/ProjectCodesTab.jsx:83-86 | a code is found when its code contains the query, or when the code does not and the college name does (the name is read only then) |
| `ProjectCodesTab.FilterOrThrow` | src/pages/superadmin/components/ProjectCodesTab.jsx:83-86 | the filter keeps exactly the codes the search finds, never more than the list, and throws exactly when testing one code throws |
| `ProjectCodesTab.FilteredCodes` | src/pages/superadmin/components/ProjectCodesTab.jsx:80-87 | an empty search shows every code; otherwise the codes whose code or college name contains the lower-cased search |
| `ProjectCodesTab.SearchIgnoresCase` | src/pages/superadmin/components/ProjectCodesTab.jsx:82 | upper-casing the search changes nothing in the result |
| `ProjectCodesTab.ExtractCodes` | src/pages/superadmin/components/ProjectCodesTab.jsx:106-110 | the extracted codes are all truthy, and never more than the items |
| `ProjectCodesTab.ExtractKeeps` | src/pages/superadmin/components/ProjectCodesTab.jsx:106-110 | every non-empty string item and every object's truthy `code` is kept |
| `ProjectCodesTab.ImportState.constructor` | src/pages/superadmin/components/ProjectCodesTab.jsx:54-60 | the import state starts empty: no codes, no file name, no error, not importing, modal closed |
| `ProjectCodesTab.ImportState.HandleFileChange` | src/pages/superadmin/components/ProjectCodesTab.jsx:90-123 | no file changes nothing; otherwise the file name is kept and a JSON array's codes are imported, or the import list is cleared and the error is "File must contain a JSON array", "No valid project codes found in array", the parser's message or "Invalid JSON file" |
| `ProjectCodesTab.ImportState.HandleImport` | src/pages/superadmin/components/ProjectCodesTab.jsx:125-150 | without rows nothing happens; otherwise the codes of the unflagged rows are sent; when there are none, or the call succeeds, the import is cleared and the modal closed; a failing call leaves the import open; importing ends either way |
| `ProjectCodesTab.NewRawCodes` | src/pages/superadmin/components/ProjectCodesTab.jsx:75-77 | the codes sent are as many as newCount |
| `ProjectCodesTab.SentCodesAreNew` | src/pages/superadmin/components/ProjectCodesTab.jsx:125-141 | with the intended duplicate test, no code sent for import is already stored |
| `ProjectCodesTab.AsWrittenAllOrNothing` | src/pages/superadmin/components/ProjectCodesTab.jsx:66-72 | with the page's own test the flag does not depend on the row: if some stored document lacks a code, every row is flagged and nothing is sent; otherwise no row is flagged and every raw code is sent, stored or not |
| `CacheService.TwoDigits` | src/services/superadmin/cacheService.js:27-40 | `padStart(2, '0')` of a number below 100 gives two digits that read back as the number |
| `CacheService.YearMonth` | src/services/superadmin/cacheService.js:27-32 | the trend key is the year, a '-' and two digits that read back as the month |
| `CacheService.YearMonthInjective` | src/services/superadmin/cacheService.js:27-32 | sessions of different months go to different trend documents |
| `CacheService.DayOfMonth` | src/services/superadmin/cacheService.js:37-40 | the day key is two digits that read back as the day of the month |
| `CacheService.SanitizeFieldName` | src/services/superadmin/cacheService.js:49-52 | a missing or empty name gives "unknown"; the result never contains '.' and is trimmed |
| `CacheService.SanitizeKeepsPlainNames` | src/services/superadmin/cacheService.js:49-52 | a trimmed name without dots is kept unchanged |
| `CacheService.SanitizeIdempotent` | src/services/superadmin/cacheService.js:49-52 | sanitising a sanitised name changes nothing |
| `CacheService.RatingSumBounds` | src/services/superadmin/cacheService.js:137-142 | with ratings 1-5 and non-negative counts, ratingSum lies between totalRatingsCount and five times it, so their ratio is a rating |
| `CacheService.RatingSumAppend` | src/services/superadmin/cacheService.js:137-142 | the sums over two parts of a distribution add up |
| `CacheService.Apply` | src/services/superadmin/cacheService.js:241-246 | applying an update moves every named field by its final delta and leaves every other field unchanged |
| `CacheService.ApplyMirrorRestores` | src/services/superadmin/cacheService.js:161-246 | applying an update and then its negation restores every counter |
| `CacheService.PushEach` | src/services/superadmin/cacheService.js:180-216 | one `forEach` appends one increment per element, in order |
| `CacheService.BuildCollegeUpdates` | src/services/superadmin/cacheService.js:169-238 | the college's flatUpdates list is pushed in the code's order, topics twice included |
| `CacheService.BuildTrainerUpdates` | src/services/superadmin/cacheService.js:386-413 | the trainer's flatUpdates list is pushed in the code's order |
| `CacheService.TopicEmittedTwice` | src/services/superadmin/cacheService.js:180-216 | as written, every topic's path is named twice in one college update |
| `CacheService.RepeatedBlockHarmless` | src/services/superadmin/cacheService.js:180-216 | repeating a block later, when only blocks that do not name its paths come between, changes no field's final delta |
| `CacheService.AsWrittenSameDeltas` | src/services/superadmin/cacheService.js:169-238 | the update as written and the update with one topic block give every field the same final delta |
| `CacheService.AsWrittenSameEffect` | src/services/superadmin/cacheService.js:169-246 | because a field named twice keeps its last value, the doubled topic block still moves each topic once; the update as written has the effect of the corrected one |
| `CacheService.ZeroDeltas` | src/services/superadmin/cacheService.js:241-246 | an update whose deltas are all zero moves nothing |
| `CacheService.CollegeMirror` | src/services/superadmin/cacheService.js:161-238 | the college update of a delete is the add's, negated field by field |
| `CacheService.TrainerMirror` | src/services/superadmin/cacheService.js:378-413 | the trainer update of a delete is the add's, negated field by field |
| `CacheService.CollegeCountersMove` | src/services/superadmin/cacheService.js:172-175 | totalSessions moves by ±1; totalResponses, totalRatingsCount and ratingSum move by ± this session's values |
| `CacheService.BucketMoves` | src/services/superadmin/cacheService.js:190-192 | each ratingDistribution bucket's increment is ± this session's count |
| `CacheService.CollegeBucketMoves` | src/services/superadmin/cacheService.js:190-246 | on an existing document each bucket moves by ± this session's count |
| `CacheService.HierarchyMoves` | src/services/superadmin/cacheService.js:157-235 | with course, year and batch defaulting to "Unknown", "1" and "A", the course, the year under it and the batch under that each get the same three increments |
| `CacheService.CollegeLevelMoves` | src/services/superadmin/cacheService.js:218-246 | on an existing document the course, year and batch levels move like the totals |
| `CacheService.DistFields` | src/services/superadmin/cacheService.js:257 | the created document's distribution is `ratingDistribution` or five zero buckets |
| `CacheService.NewCollegeCacheIsAdd` | src/services/superadmin/cacheService.js:249-301 | the document created by the first add holds exactly what the add's increments would put into an empty document |
| `CacheService.CategoryFieldsAreIncrements` | src/services/superadmin/cacheService.js:410-435 | without dotted names, the trainer's written category fields equal its first session's category increments |
| `CacheService.NewTrainerCacheIsAdd` | src/services/superadmin/cacheService.js:418-439 | the trainer document created by the first add holds exactly what the add's increments would put into an empty document |
| `CacheService.TrendMoves` | src/services/superadmin/cacheService.js:307-313 | an existing trend document moves dailyResponses[day] by ±totalResponses and dailySessions[day] by ±1, and nothing else |
| `CacheService.NewTrendIsAdd` | src/services/superadmin/cacheService.js:314-321 | the created trend document is what the add's increments put into an empty document, and the delete's increments are their negation |
| `CacheService.UpdateCollegeCache` | src/services/superadmin/cacheService.js:106-327 | only the college's document and this month's trend document can change; a delete finding no document creates none |
| `CacheService.UpdateTrainerCache` | src/services/superadmin/cacheService.js:332-463 | without an assigned trainer nothing changes; otherwise only the trainer's document and this month's trend document can change |
| `CacheService.AddThenDeleteDoc` | src/services/superadmin/cacheService.js:166-301 | one document after an add and then a delete of the same session reads as before, whether the add found it or created it |
| `CacheService.CollegeAddThenDelete` | src/services/superadmin/cacheService.js:106-327 | deleting a session right after adding it restores every counter of the college's document and of its trend document |
| `CacheService.TrainerAddThenDelete` | src/services/superadmin/cacheService.js:332-463 | deleting a session right after adding it restores every counter of the trainer's documents |
| `CacheComments.FirstById` | src/services/superadmin/cacheService.js:581-587 | the kept comments have distinct response ids, cover every id of the input, and all come from the input |
| `CacheComments.FirstKept` | src/services/superadmin/cacheService.js:581-587 | each kept comment is the first comment of the input that carries its id |
| `CacheComments.DedupeByResponseId` | src/services/superadmin/cacheService.js:581-587 | the `seen`-set filter keeps exactly FirstById's comments |
| `CacheComments.RatingValue` | src/services/superadmin/cacheService.js:592 | `Number(c.rating or c.avgRating or 0)`: a missing or zero rating falls through to the average rating, and then to 0 |
| `CacheComments.Normalise` | src/services/superadmin/cacheService.js:591-593 | the rewrite sets the rating to RatingValue and leaves every other field of the comment as it was |
| `CacheComments.NormaliseKeepsIds` | src/services/superadmin/cacheService.js:591-593 | the rewrite keeps the ids and their distinctness |
| `CacheComments.AheadTotal` | src/services/superadmin/cacheService.js:595-604 | for each kind of list, of any two comments one may go first: the comparator is total |
| `CacheComments.AheadTransitive` | src/services/superadmin/cacheService.js:595-604 | the comparator's order is transitive |
| `CacheComments.Insert` | src/services/superadmin/cacheService.js:597-603 | inserting into a sorted list keeps it sorted and adds exactly that comment |
| `CacheComments.SortComments` | src/services/superadmin/cacheService.js:595-604 | the sort puts the comments in the kind's order (high: highest rating then newest; low: lowest rating then newest; otherwise newest) and is a permutation |
| `CacheComments.MergeComments` | src/services/superadmin/cacheService.js:576-608 | the step-by-step merge returns Merged: at most five comments with distinct ids, in the kind's order, each with a numeric rating and an id from one of the two lists |
| `CacheComments.MergedProperties` | src/services/superadmin/cacheService.js:576-608 | at most five comments, distinct ids, in the kind's order, each rated and taken from the two lists; exactly as many as there are distinct ids, up to five |
| `CacheComments.MergedKeepsBest` | src/services/superadmin/cacheService.js:595-607 | the kept comments are drawn from the candidates, and every candidate left out may follow every kept comment in the kind's order |
| `CacheComments.CandidateRated` | src/services/superadmin/cacheService.js:578-593 | every candidate carries a numeric rating and an id from one of the two lists |
| `CacheComments.TakenFrom` | src/services/superadmin/cacheService.js:607 | every kept comment is one of the candidates |
| `ResponseService.TextComments` | src/services/superadmin/responseService.js:117-122 | the text comments are the text answers holding more than white space, kept untrimmed and in order |
| `ResponseService.StatOf` | src/services/superadmin/responseService.js:107-125 | a response's statistics carry its id and answers, its text comments, and the mean of its rating answers (0 without any) |
| `ResponseService.PositiveAverages` | src/services/superadmin/responseService.js:128 | `allRatings` keeps only positive per-response averages, never more than there are responses |
| `ResponseService.MaxOf` | src/services/superadmin/responseService.js:214 | `Math.max` of a non-empty list is one of its elements and no element exceeds it |
| `ResponseService.MinOf` | src/services/superadmin/responseService.js:215 | `Math.min` of a non-empty list is one of its elements and no element is below it |
| `ResponseService.MeanBetween` | src/services/superadmin/responseService.js:129-131 | the mean of a non-empty list lies between its least and greatest element |
| `ResponseService.RatingsOrdered` | src/services/superadmin/responseService.js:128-215 | with at least one positive average: 0 < leastRating ≤ avgRating ≤ topRating |
| `ResponseService.RoundedRatingsOrdered` | src/services/superadmin/responseService.js:308-310 | the same order holds after each figure is rounded to two decimals |
| `ResponseService.InsertByAverage` | src/services/superadmin/responseService.js:134 | inserting into a list sorted by descending average keeps it sorted and adds exactly that element |
| `ResponseService.SortByAverage` | src/services/superadmin/responseService.js:134 | the sorted copy is in descending average order and is a permutation of the statistics |
| `ResponseService.Cutoff` | src/services/superadmin/responseService.js:139-140 | `Math.ceil(n * 0.2)` is ⌈n/5⌉ and never exceeds n |
| `ResponseService.Reversed` | src/services/superadmin/responseService.js:143 | `reverse()` puts element i at position n-1-i |
| `ResponseService.PercentilesCover` | src/services/superadmin/responseService.js:139-144 | from two responses on, high takes ⌈n/5⌉ from the top and low the same number from the bottom, lowest first, and high, mid and reversed low rebuild the sorted list; a single response is both high and low |
| `ResponseService.GroupsDisjoint` | src/services/superadmin/responseService.js:142-144 | from two responses on, the three groups split the responses: none is in two groups and none is lost |
| `ResponseService.CommentsOf` | src/services/superadmin/responseService.js:154-160 | a response offers one comment per text comment, each with the response's rounded average and id |
| `ResponseService.DrawAllBounded` | src/services/superadmin/responseService.js:147-167 | never more than count comments are collected |
| `ResponseService.DrawAllFull` | src/services/superadmin/responseService.js:164 | once count comments are collected, later responses add nothing |
| `ResponseService.DrawResponse` | src/services/superadmin/responseService.js:152-163 | the inner loop over one response's comments is the specification's step for that response |
| `ResponseService.ExtractComments` | src/services/superadmin/responseService.js:147-167 | the loops of extractComments compute exactly Extract |
| `ResponseService.ExtractIsFirstComments` | src/services/superadmin/responseService.js:147-167 | with distinct response ids, extractComments returns the first count comments of the group, in order |
| `ResponseService.ExtractFromGroup` | src/services/superadmin/responseService.js:147-172 | at most count comments, each a text comment of a response in the group, carrying that response's rounded average |
| `ResponseService.TopicsIn` | src/services/superadmin/responseService.js:180-183 | the topics of one answer are non-empty pieces containing no comma |
| `ResponseService.FutureIn` | src/services/superadmin/responseService.js:185-191 | the wishes of one response carry its id and an average of 0, and none is blank |
| `ResponseService.FutureInMembers` | src/services/superadmin/responseService.js:185-191 | a wish is listed for a response exactly when one of its answers is a non-blank future-session answer with that text |
| `ResponseService.WishesSnoc` | src/services/superadmin/responseService.js:178-192 | one more response appends its own wishes after the earlier ones |
| `ResponseService.WishesMembers` | src/services/superadmin/responseService.js:178-192 | a wish is gathered exactly when some response has a non-blank future-session answer with that text, and it carries that response's id |
| `ResponseService.FutureTopics` | src/services/superadmin/responseService.js:210 | the first five wishes gathered, in response order, or all of them when there are fewer |
| `ResponseService.Capitalise` | src/services/superadmin/responseService.js:205 | capitalising keeps the length |
| `ResponseService.LowerOfCapitalised` | src/services/superadmin/responseService.js:198-205 | lower-casing a capitalised topic gives its lower-cased name back |
| `ResponseService.TopicsLearned` | src/services/superadmin/responseService.js:203-206 | fifteen topics, or one per counted name when there are fewer, ordered by descending count |
| `ResponseService.TopicsLearnedFrom` | src/services/superadmin/responseService.js:203-205 | every listed topic is one of the counted names, capitalised, with its count |
| `ResponseService.TopicsCounted` | src/services/superadmin/responseService.js:196-206 | each listed topic's count is how often it was named ignoring case and is positive, and its name is that lower-cased name capitalised; the list is ordered by count and holds fifteen topics or one per distinct name; a name left out only when fifteen are listed, each named at least as often |
| `ResponseService.ListedTopic` | src/services/superadmin/responseService.js:196-206 | the i-th listed topic is the i-th entry of the count-sorted tally, capitalised, with the number of times it was named |
| `ResponseService.OmittedTopic` | src/services/superadmin/responseService.js:196-206 | a name named but not listed means fifteen topics are listed and each was named at least as often |
| `ResponseService.StatsOf` | src/services/superadmin/responseService.js:107-125 | one statistics record per response |
| `ResponseService.GatherAnswers` | src/services/superadmin/responseService.js:219-226 | the loop over responses gathers all their answers in order |
| `ResponseService.CompileSessionStats` | src/services/superadmin/responseService.js:87-325 | the step-by-step compilation returns Compiled: no responses give the empty statistics; it throws exactly when a text, topics or wish answer has a value that is neither missing, null nor a string (no `trim`) |
| `ResponseService.CompiledShape` | src/services/superadmin/responseService.js:91-320 | totalResponses is the number of responses; the five buckets count the rating answers rounding to each value, and hold no more than there are rating answers; at most five comments per group, fifteen topics and five wishes |
| `ResponseService.CompiledCategoryMeans` | src/services/superadmin/responseService.js:268-304 | when every rating reads as a positive number, each category's average is the mean of the ratings given under it, rounded to two decimals |
| `ResponseTallies.NumberOrZero` | src/services/superadmin/responseService.js:289 | `Number(v) || 0`: a number is itself, true is 1, missing, null and false are 0, and nothing else is negative |
| `ResponseTallies.Round` | src/services/superadmin/responseService.js:221 | `Math.round(x)` is the integer within half of x, halves rounding up |
| `ResponseTallies.RoundMonotone` | src/services/superadmin/responseService.js:221 | rounding never reverses an order |
| `ResponseTallies.Round2` | src/services/superadmin/responseService.js:303-310 | `Math.round(x * 100) / 100` lies within 0.005 of x |
| `ResponseTallies.Round2Monotone` | src/services/superadmin/responseService.js:308-310 | rounding to two decimals never reverses an order |
| `ResponseTallies.HasText` | src/services/superadmin/responseService.js:117 | `v?.trim()` as a condition: it throws exactly for a value that is neither missing, null nor a string, and is truthy exactly for a string holding more than white space |
| `ResponseTallies.Occurrences` | src/services/superadmin/responseService.js:197-200 | a topic's count is positive exactly when it was named |
| `ResponseTallies.TallyCounts` | src/services/superadmin/responseService.js:196-200 | the tally holds each lower-cased topic once, in first-occurrence order, with the number of times it occurs |
| `ResponseTallies.CountLowered` | src/services/superadmin/responseService.js:196-200 | the `topicCounts` loop computes exactly the tally of the lower-cased topics |
| `ResponseTallies.RatingValues` | src/services/superadmin/responseService.js:220 | the rating answers' values, in order |
| `ResponseTallies.DistributionCounts` | src/services/superadmin/responseService.js:218-226 | each bucket 1-5 counts the values that round to it; the buckets together hold no more than all the values |
| `ResponseTallies.RatingDistribution` | src/services/superadmin/responseService.js:218-226 | the `ratingDistribution` loop over all answers computes exactly Distribution of the rating values |
| `ResponseTallies.ValuesTo` | src/services/superadmin/responseService.js:239 | the values of the answers to one question, in order; empty exactly when the question was not answered |
| `ResponseTallies.QuestionAccsFind` | src/services/superadmin/responseService.js:229-242 | a question has an entry exactly when it was answered; the entry has the first answer's type, all its values in order, and their number as count |
| `ResponseTallies.Finalise` | src/services/superadmin/responseService.js:245-266 | the summary keeps type and count, has an average exactly for a rating question and option counts exactly for a choice question |
| `ResponseTallies.QuestionStatsCount` | src/services/superadmin/responseService.js:229-266 | `questionStats[q].count` is the number of answers to q, its type is the first answer's, and a rating question's buckets count its values |
| `ResponseTallies.BuildQuestionStats` | src/services/superadmin/responseService.js:229-266 | the two `questionStats` loops compute exactly QuestionStats |
| `ResponseTallies.CategoryOf` | src/services/superadmin/responseService.js:288 | a rating's category is never empty |
| `ResponseTallies.UncategorisedIsOverall` | src/services/superadmin/responseService.js:275-288 | a question that no session question gives a category is rated under "overall" |
| `ResponseTallies.RatedCategories` | src/services/superadmin/responseService.js:286-289 | one category-and-value pair per rating answer, in order |
| `ResponseTallies.CategoryTotalsSum` | src/services/superadmin/responseService.js:283-298 | with the intended step, each category holds the sum and the number of the values rated under it |
| `ResponseTallies.CategoryAverageIsMean` | src/services/superadmin/responseService.js:301-304 | with the intended step, each category's average is the mean of its values, rounded to two decimals |
| `ResponseTallies.ZeroRatingDropped` | src/services/superadmin/responseService.js:291-296 | as written, a category whose running total is 0 is restarted: the values 0 and 4 average to 4 instead of 2 |
| `ResponseTallies.AsWrittenOnPositive` | src/services/superadmin/responseService.js:283-298 | while every value is positive, the step as written never restarts a category and agrees with the intended one |
| `ResponseTallies.PositiveTotals` | src/services/superadmin/responseService.js:283-298 | with positive values every running total is positive |
| `ResponseTallies.CategoryAverages` | src/services/superadmin/responseService.js:283-304 | the category loops compute exactly the averages of the as-written totals |
| `AcademicLibJs.GetDefaultConfigAsWritten` | src/lib/academicConfig.js:231-240 | as written, the IGSB branch names an undeclared subject table and throws; every other code gets the ICEM tables |
| `AcademicLibJs.GetDefaultConfig` | src/lib/academicConfig.js:231-240 | as intended, IGSB gets its own course table with the ICEM subjects (the right side of the or-operator), every other code the ICEM tables |
| `AcademicLibJs.GetAcademicConfigAsWritten` | src/lib/academicConfig.js:248-281 | a stored configuration is returned as stored, with batches A to D when it has none; otherwise the default tables of the college's code, the thrown IGSB choice and a failed college read both ending in the ICEM defaults |
| `AcademicLibJs.GetAcademicConfig` | src/lib/academicConfig.js:248-281 | the same with the intended default choice: a stored configuration wins, and the batches are A to D whenever none are stored |
| `AcademicLibJs.IgsbGetsIcemAsWritten` | src/lib/academicConfig.js:231-240 | as written, an IGSB college without a stored configuration gets the ICEM course table, which differs from the IGSB one |
| `AcademicLibJs.IgsbGetsIgsb` | src/lib/academicConfig.js:231-240 | as intended it gets the IGSB course table, and every college whose code is not IGSB gets the same ICEM tables under both versions |
| `AcademicLibJs.GetYearsForCourse` | src/lib/academicConfig.js:308-310 | the course's year list; empty for an unknown course or one without years |
| `AcademicLibJs.GetDepartmentsForCourse` | src/lib/academicConfig.js:315-323 | none for an unknown course; a TypeError when the course has no per-year department table; otherwise the departments of all its years in first-seen order |
| `AcademicLibJs.CollectDistinct` | src/lib/academicConfig.js:318-322 | the nested forEach into a Set yields each department once, in first-seen order |
| `AcademicLibJs.AddEach` | src/lib/academicConfig.js:320 | adding a year's list to the Set extends the distinct list by that list |
| `AcademicLibJs.AddOne` | src/lib/academicConfig.js:320 | adding one department to the Set is a no-op when present and an append otherwise |
| `AcademicLibJs.DepartmentsOfComplete` | src/lib/academicConfig.js:315-323 | the result has no repeats and holds a department exactly when some year lists it |
| `AcademicLibJs.GetSubjectsForContext` | src/lib/academicConfig.js:328-330 | the subject names stored under course, year and department; none as soon as any level is missing |
| `AcademicLibJs.GetAllCourses` | src/lib/academicConfig.js:335-337 | the course names, one per entry, in the table's order |
| `AcademicLibJs.GetSemestersForCourse` | src/lib/academicConfig.js:342-344 | the course's own semesters, Odd and Even when the course or its list is missing |
| `AcademicLibTs.GetAcademicConfig` | src/lib/academicConfig.ts:144-163 | a stored document is returned with its own tables and its batches, A to D when it has none; a missing document or a failed read gives the default tables and batches |
| `AcademicLibTs.GetYearsForCourse` | src/lib/academicConfig.ts:185-190 | the course's year list; empty for an unknown course or one without years |
| `AcademicLibTs.GetDepartmentsForCourse` | src/lib/academicConfig.ts:195-200 | the course's department list; empty for an unknown course or one without departments |
| `AcademicLibTs.GetSubjectsForContext` | src/lib/academicConfig.ts:205-212 | the subjects stored under course, year and department; empty as soon as any of the three levels is missing |
| `AcademicLibTs.GetAllCourses` | src/lib/academicConfig.ts:217-219 | the course names, one per entry, in the table's order |
| `AcademicLibTs.GetSemestersForCourse` | src/lib/academicConfig.ts:224-229 | the course's own semesters, Odd and Even when the course or its list is missing |
| `AcademicLibTs.ListedInOrder` | src/lib/academicConfig.ts:6-129 | a subject table whose years and departments follow the course's own lists names nothing outside them |
| `AcademicLibTs.DefaultListed0` | src/lib/academicConfig.ts:7-57 | the default Engineering subjects are keyed by Engineering's own years and departments |
| `AcademicLibTs.DefaultListed1` | src/lib/academicConfig.ts:12-69 | the default MBA subjects are keyed by MBA's own years and departments |
| `AcademicLibTs.DefaultListed2` | src/lib/academicConfig.ts:17-79 | the default MCA subjects are keyed by MCA's own years and departments |
| `AcademicLibTs.DefaultListed3` | src/lib/academicConfig.ts:22-106 | the default BBA+MBA subjects are keyed by that course's own years and departments |
| `AcademicLibTs.DefaultListed4` | src/lib/academicConfig.ts:27-128 | the default BCA+MCA subjects are keyed by that course's own years and departments |
| `AcademicLibTs.DefaultSubjectsListed` | src/lib/academicConfig.ts:6-129 | the default subject table names only courses, years and departments of the default course table |
| `AcademicService.ValidateDepts` | src/services/superadmin/academicService.js:101-110 | the department loop succeeds exactly when every department has no `years` and its `batches`, when set, is an array; otherwise its message names the first bad department |
| `AcademicService.ValidateYears` | src/services/superadmin/academicService.js:92-111 | the year loop succeeds exactly when every year's departments pass; a year without departments is skipped |
| `AcademicService.ValidateCourses` | src/services/superadmin/academicService.js:84-112 | the course loop succeeds exactly when every course passes; a course holding `departments` directly is refused with the course-level message |
| `AcademicService.Validate` | src/services/superadmin/academicService.js:81-113 | validateAcademicConfig accepts a config exactly when it is missing, has no courses, or has the course → years → departments → batches shape |
| `AcademicService.TreeValidates` | src/services/superadmin/academicService.js:81-113 | every document the academic-structure editor stores passes validation |
| `AcademicService.OldShapeRejected` | src/services/superadmin/academicService.js:86-88 | a config in the old course → departments → years shape is refused with the message naming its first course |
| `AcademicService.SaveAcademicConfig` | src/services/superadmin/academicService.js:42-75 | validation runs first (its error is returned), then an unknown college fails with "Invalid College ID: …"; a save writes only that college's document and keeps every other one |
| `AcademicService.SavedDocFields` | src/services/superadmin/academicService.js:56-62 | in the saved document updatedAt is the save time, the config's own fields win over collegeId, collegeName and collegeCode, and those fill in when the config lacks them |
| `AcademicTree.StrsJson` | src/services/superadmin/academicService.js:26 | a batch list is stored as the array of its names, in order |
| `AcademicConfigTab.CourseAt` | src/pages/superadmin/components/AcademicConfigTab.jsx:243-247 | `config.courses[courseName]`: found exactly when the course key exists, and then it is that course |
| `AcademicConfigTab.YearAt` | src/pages/superadmin/components/AcademicConfigTab.jsx:267-280 | `config.courses[courseName].years[year]`: reached only when the course exists, has a years map and that map holds the year (the source throws otherwise) |
| `AcademicConfigTab.DeptAt` | src/pages/superadmin/components/AcademicConfigTab.jsx:306-325 | `...years[year].departments[deptName]`: reached only when the year exists with a departments map holding the department |
| `AcademicConfigTab.AddCourse` | src/pages/superadmin/components/AcademicConfigTab.jsx:231-241 | a blank name changes nothing; otherwise the name maps to a course with an empty years map, replacing a course of that name |
| `AcademicConfigTab.AddCourseResets` | src/pages/superadmin/components/AcademicConfigTab.jsx:231-241 | adding at an existing key replaces that course with an empty one; every other course is unchanged and keys stay unique |
| `AcademicConfigTab.RemoveCourse` | src/pages/superadmin/components/AcademicConfigTab.jsx:243-247 | the course's key is gone and every other course is as before |
| `AcademicConfigTab.AddYear` | src/pages/superadmin/components/AcademicConfigTab.jsx:250-265 | a blank year changes nothing; a missing course throws; otherwise the year maps to an empty departments map in that course |
| `AcademicConfigTab.RemoveYear` | src/pages/superadmin/components/AcademicConfigTab.jsx:267-280 | a missing course throws; otherwise the course's years lose that key |
| `AcademicConfigTab.RemoveYearOne` | src/pages/superadmin/components/AcademicConfigTab.jsx:267-280 | exactly that year of that course is deleted; the other years and courses are as before |
| `AcademicConfigTab.AddDept` | src/pages/superadmin/components/AcademicConfigTab.jsx:283-304 | a blank name changes nothing; a missing year throws; otherwise the department maps to an empty batch list in that year |
| `AcademicConfigTab.RemoveDept` | src/pages/superadmin/components/AcademicConfigTab.jsx:306-325 | a missing year throws; otherwise that year's departments lose the key |
| `AcademicConfigTab.RemoveDeptOne` | src/pages/superadmin/components/AcademicConfigTab.jsx:306-325 | exactly that department is deleted; every other department, year and course is as before |
| `AcademicConfigTab.AddBatch` | src/pages/superadmin/components/AcademicConfigTab.jsx:328-355 | a blank or already listed batch changes nothing; a missing department throws; otherwise the batch is appended to that department's list |
| `AcademicConfigTab.AddBatchDistinct` | src/pages/superadmin/components/AcademicConfigTab.jsx:328-355 | adding keeps a duplicate-free batch list duplicate-free, and the batch is then listed |
| `AcademicConfigTab.RemoveBatch` | src/pages/superadmin/components/AcademicConfigTab.jsx:357-384 | a missing department throws; otherwise every copy of the batch leaves that list and the rest keep their order |
| `AcademicConfigTab.RemoveBatchGone` | src/pages/superadmin/components/AcademicConfigTab.jsx:357-384 | after removal the batch is not listed and the remaining batches are exactly the others |
| `AcademicConfigTab.RenameCourse` | src/pages/superadmin/components/AcademicConfigTab.jsx:387-416 | a blank or unchanged name, or one already used, changes nothing; otherwise the key is renamed in place |
| `AcademicConfigTab.RenameCourseMoves` | src/pages/superadmin/components/AcademicConfigTab.jsx:387-416 | renaming to a fresh name keeps keys unique, moves the course's subtree to the new key and leaves the other courses alone |
| `AcademicConfigTab.RenameDept` | src/pages/superadmin/components/AcademicConfigTab.jsx:419-452 | a blank, unchanged or already used name changes nothing; otherwise the department key is renamed in place within that year |
| `AcademicConfigTab.RenameIn` | src/pages/superadmin/components/AcademicConfigTab.jsx:462 | `batches.map(b => b === old ? new : b)`: same length, each occurrence of the old name replaced |
| `AcademicConfigTab.RenameBatch` | src/pages/superadmin/components/AcademicConfigTab.jsx:455-486 | a blank, unchanged or already listed name changes nothing; otherwise every occurrence of the old batch is replaced in that list |
| `AcademicConfigTab.RenameBatchDistinct` | src/pages/superadmin/components/AcademicConfigTab.jsx:455-486 | renaming to an unused name keeps the list duplicate-free, and the new name replaces the old one |
| `AcademicConfigTab.EditSave` | src/pages/superadmin/components/AcademicConfigTab.jsx:153-174 | a blank or unchanged value closes the dialog without change, as does a kind other than course, department or batch |
| `AcademicConfigTab.YearsForCourse` | src/pages/superadmin/components/AcademicConfigTab.jsx:562-564 | the year keys, sorted ascending by parseInt: a permutation of the keys |
| `AcademicConfigTab.CourseStats` | src/pages/superadmin/components/AcademicConfigTab.jsx:567-574 | yearCount is the number of years and deptCount the departments summed over the years |
| `AcademicConfigTab.SetDeptFrame` | src/pages/superadmin/components/AcademicConfigTab.jsx:328-355 | writing one department reaches it and leaves every other course, year and department as it was |
| `AcademicConfigTab.SetYearFrame` | src/pages/superadmin/components/AcademicConfigTab.jsx:283-304 | writing one year reaches it and leaves the other courses and years as they were |
| `AdminAcademicConfig.Build` | src/components/admin/AcademicConfig.tsx:53-101 | buildCoursesFromConfig: one course per stored course in key order, one year per listed year, each year carrying the course's whole department list, and every department the batches A to D |
| `AdminAcademicConfig.BuildShape` | src/components/admin/AcademicConfig.tsx:53-101 | each loaded department sits at its course, year and position, named as listed, with the stored subjects for that course, year and department (none when missing) and batches A to D |
| `AdminAcademicConfig.BuildDepartments` | src/components/admin/AcademicConfig.tsx:64-87 | the inner department loop builds exactly the year's department list |
| `AdminAcademicConfig.BuildYears` | src/components/admin/AcademicConfig.tsx:61-93 | the year loop builds exactly the course's year list |
| `AdminAcademicConfig.Save` | src/components/admin/AcademicConfig.tsx:137-157 | saveConfig's loop fills the course table and the subject table, course by course, as the specification functions describe |
| `AdminAcademicConfig.SaveDepartments` | src/components/admin/AcademicConfig.tsx:152-154 | one year's subject map, written department by department (a later department of the same name overwrites) |
| `AdminAcademicConfig.SaveYears` | src/components/admin/AcademicConfig.tsx:149-155 | one course's subject map, written year by year |
| `AdminAcademicConfig.SavedSnoc` | src/components/admin/AcademicConfig.tsx:143-156 | saving one more course is exactly one more write to each table |
| `AdminAcademicConfig.DistinctCovered` | src/components/admin/AcademicConfig.tsx:147 | `filter((v, i, a) => a.indexOf(v) === i)` keeps first occurrences: appending names already present changes nothing |
| `AdminAcademicConfig.DeptNameListIn` | src/components/admin/AcademicConfig.tsx:147 | when every year lists the same departments, the flattened list holds no other name |
| `AdminAcademicConfig.BuiltDeptNames` | src/components/admin/AcademicConfig.tsx:53-101 | every loaded year lists the course's departments in order |
| `AdminAcademicConfig.SaveBuildInfo` | src/components/admin/AcademicConfig.tsx:137-148 | load then save gives a course back its row of the course table when it has a year and no repeated department |
| `AdminAcademicConfig.SaveBuildSubjects` | src/components/admin/AcademicConfig.tsx:137-155 | load then save keeps, for every listed year and department, the stored subjects (or an empty list where none were stored) |
| `AdminAcademicConfig.BuiltYearFound` | src/components/admin/AcademicConfig.tsx:149-155 | the saved subject table of a loaded course holds each listed year's department map |
| `AdminAcademicConfig.BuiltDeptFound` | src/components/admin/AcademicConfig.tsx:152-154 | the saved map of a loaded year holds each listed department's stored subjects |
| `AdminAcademicConfig.SaveBuildCourse` | src/components/admin/AcademicConfig.tsx:137-157 | for a course table with unique keys, load then save returns each course its row, normalised as SaveBuildInfo says |
| `AdminAcademicConfig.LastFindUniform` | src/components/admin/AcademicConfig.tsx:143-156 | a key written several times with the same value reads back as that value |
| `AdminAcademicConfig.Toggle` | src/components/admin/AcademicConfig.tsx:170-178 | the id flips in or out of the expanded set and no other id changes |
| `AdminAcademicConfig.ToggleTwice` | src/components/admin/AcademicConfig.tsx:170-178 | toggling the same id twice restores the set |
| `AdminAcademicConfig.Splice` | src/components/admin/AcademicConfig.tsx:196-200 | removing at index i: one element fewer, those before i kept in place, those after shifted down by one; past the end nothing changes |
| `AdminAcademicConfig.WithDeptFrame` | src/components/admin/AcademicConfig.tsx:237-300 | replacing one department leaves every other department, year and course where and as it was |
| `AdminAcademicConfig.Editor.constructor` | src/components/admin/AcademicConfig.tsx:111-130 | the editor starts with the loaded courses and nothing expanded |
| `AdminAcademicConfig.Editor.ToggleExpanded` | src/components/admin/AcademicConfig.tsx:170-178 | the expanded set is toggled at id and the courses stay |
| `AdminAcademicConfig.Editor.AddCourse` | src/components/admin/AcademicConfig.tsx:180-185 | an empty or cancelled name changes nothing; otherwise a course with no years is appended |
| `AdminAcademicConfig.Editor.EditCourse` | src/components/admin/AcademicConfig.tsx:187-194 | an empty name changes nothing; otherwise only that course's name changes |
| `AdminAcademicConfig.Editor.DeleteCourse` | src/components/admin/AcademicConfig.tsx:196-200 | after confirmation the course at index is removed; without it nothing changes |
| `AdminAcademicConfig.Editor.AddYear` | src/components/admin/AcademicConfig.tsx:202-209 | an empty name changes nothing; otherwise a year with no departments is appended to that course only |
| `AdminAcademicConfig.Editor.EditYear` | src/components/admin/AcademicConfig.tsx:211-218 | an empty name changes nothing; otherwise only that year's name changes |
| `AdminAcademicConfig.Editor.DeleteYear` | src/components/admin/AcademicConfig.tsx:220-226 | after confirmation that year is spliced out of its course; without it nothing changes |
| `AdminAcademicConfig.Editor.AddDepartment` | src/components/admin/AcademicConfig.tsx:228-235 | an empty name changes nothing; otherwise an empty department is appended to that year only |
| `AdminAcademicConfig.Editor.EditDepartment` | src/components/admin/AcademicConfig.tsx:237-244 | an empty name changes nothing; otherwise only that department's name changes |
| `AdminAcademicConfig.Editor.DeleteDepartment` | src/components/admin/AcademicConfig.tsx:246-252 | after confirmation that department is spliced out of its year; without it nothing changes |
| `AdminAcademicConfig.Editor.AddSubject` | src/components/admin/AcademicConfig.tsx:254-261 | an empty name changes nothing; otherwise the subject is appended to that department only |
| `AdminAcademicConfig.Editor.EditSubject` | src/components/admin/AcademicConfig.tsx:263-270 | an empty name changes nothing; otherwise only that subject is renamed |
| `AdminAcademicConfig.Editor.DeleteSubject` | src/components/admin/AcademicConfig.tsx:272-276 | the subject is spliced out without a confirmation |
| `AdminAcademicConfig.Editor.AddBatch` | src/components/admin/AcademicConfig.tsx:278-285 | an empty name changes nothing; otherwise the batch is appended to that department only |
| `AdminAcademicConfig.Editor.EditBatch` | src/components/admin/AcademicConfig.tsx:287-294 | an empty name changes nothing; otherwise only that batch is renamed |
| `AdminAcademicConfig.Editor.DeleteBatch` | src/components/admin/AcademicConfig.tsx:296-300 | the batch is spliced out without a confirmation |
| `AutoConfig.EnsureCourse` | verify_auto_config.js:25-35 | afterwards the course exists with a years map; the flag is set exactly when one of the two was missing, nothing changes otherwise, and no other course and no existing year is touched |
| `AutoConfig.EnsureYear` | verify_auto_config.js:38-43 | afterwards the year exists; the flag is set exactly when it was missing; nothing outside that course changes and existing years are kept |
| `AutoConfig.EnsureYears` | verify_auto_config.js:38-44 | after the inner loop every listed year of the course exists; the flag is clear exactly when all of them already did, and then the config is unchanged |
| `AutoConfig.MergeCourse` | verify_auto_config.js:24-45 | one pass of the outer loop makes the course and all its listed years present, changing nothing when they already were |
| `AutoConfig.MergeAll` | verify_auto_config.js:24-45 | after the whole loop every input course and year is present; courses not in the input are untouched and existing data is kept (test 1 and test 2 at lines 69-110) |
| `AutoConfig.SavedIffMissing` | verify_auto_config.js:47-52 | the config is saved exactly when some input course or year was missing (test 3 at lines 113-124) |
| `AutoConfig.ExistingYearKept` | verify_auto_config.js:81-110 | an existing year of an existing course keeps its departments and batches (test 2's "without overwriting existing") |
| `AutoConfig.SecondRunNoOp` | verify_auto_config.js:113-124 | running the merge again on its own result with the same input changes nothing and does not save |
| `AutoConfig.EnsureCourseStep` | verify_auto_config.js:25-35 | the loop-body method that creates the course and its years map computes EnsureCourse |
| `AutoConfig.EnsureYearsLoop` | verify_auto_config.js:38-44 | the inner loop method computes EnsureYears |
| `AutoConfig.MergeStep` | verify_auto_config.js:24-45 | one iteration of the outer loop advances MergeAll by one input course |
| `AutoConfig.MergeLoop` | verify_auto_config.js:22-45 | the outer loop computes MergeAll on the normalised config |
| `AutoConfig.AutoConfigStore.AutoUpdate` | verify_auto_config.js:16-56 | autoUpdateAcademicConfig saves exactly when the merge changed something, and then only that college's config is replaced by the merged one |
| `DataService.FindFirst` | src/lib/dataService.js:88-92 | the first index the callback accepts, None when it rejects every element, or the first error the callback throws before any match (`some`/`find`/`findIndex` stop at the first hit) |
| `DataService.IndexOfId` | src/lib/dataService.js:113-118 | `findIndex(o => o.id === id)`: the first index with a strictly equal id, and None exactly when no element has it |
| `DataService.WithoutId` | src/lib/dataService.js:126-130 | `filter(o => o.id !== id)`: exactly the records whose id is not that id remain |
| `DataService.DeleteKeepsOrder` | src/lib/dataService.js:129 | the records left after a delete keep their order (they are the filter of the list) |
| `DataService.Matching` | src/lib/dataService.js:315-318 | `filter(f => f[k] === v)`: exactly the records whose property is strictly equal to v |
| `DataService.CountMatchingIsLength` | src/lib/dataService.js:200-206 | each counter updateCounts stores is the length of the corresponding filtered list |
| `DataService.RatedResponses` | src/lib/dataService.js:334 | the responses with a truthy rating, drawn from the responses |
| `DataService.OverallRating` | src/lib/dataService.js:333-337 | the mean of the truthy ratings (rating sum = mean × count), and 0 when no response has one |
| `DataService.FirstMatching` | src/lib/dataService.js:379-382 | the first index whose property is strictly equal to v, None when there is none |
| `DataService.NewUser` | src/lib/dataService.js:94-100 | the stored user keeps the caller's fields, except that password is "password123", isActive is true and createdAt is the creation time whatever the input said; the generated id is used when the input has none |
| `DataService.NewCollege` | src/lib/dataService.js:166-174 | the stored college keeps the caller's fields and is active with all three counters at 0 |
| `DataService.NewSession` | src/lib/dataService.js:244-252 | the stored session is active, has no submissions, an average of 0 and the url "feedback-" + a generated id |
| `DataService.NewFeedback` | src/lib/dataService.js:333-344 | the stored feedback carries the overall rating of its responses and the submission time |
| `DataService.NewConfig` | src/lib/dataService.js:384-391 | the stored config keeps the caller's fields and gets the creation time |
| `DataService.FirstField` | src/lib/dataService.js:127-128 | `find(o => o.id === id)?.k`: the property of the first record with that id, undefined when there is none |
| `DataService.Refreshed` | src/lib/dataService.js:113-124 | after `update(id, fields)` the first record with that id carries every field's new value and every other record is unchanged; an unknown id leaves the collection as it was |
| `DataService.CountMatchingSnoc` | src/lib/dataService.js:200-206 | appending a record raises a count of matching records by one exactly when the record matches |
| `DataService.MatchingSnoc` | src/lib/dataService.js:291-292 | appending a record to a collection appends it to the filtered list exactly when it matches |
| `DataService.SumOfFieldSnoc` | src/lib/dataService.js:294-296 | appending a record adds its `overallRating || 0` to the rating sum |
| `DataService.NewMemberCounted` | src/lib/dataService.js:200-206 | after a trainer of a college is appended, the college's trainerCount is one more and its adminCount and sessionCount are unchanged |
| `DataService.NewSessionCounted` | src/lib/dataService.js:200-206 | after a session of a college is appended, the college's sessionCount is one more |
| `DataService.NewFeedbackCounted` | src/lib/dataService.js:290-296 | after a feedback for a session is appended, its submissionCount is one more and its rating sum grows by the feedback's overall rating |
| `DataService.UpdateTouchesOne` | src/lib/dataService.js:113-124 | an update of a known id changes only that record, and every updated field takes the new value |
| `DataService.LocalStore.constructor` | src/lib/dataService.js:20-42 | initializeData on empty storage: the seed collections and an empty submitted-sessions list |
| `DataService.LocalStore.UserByEmail` | src/lib/dataService.js:66-69 | the user found has the email ignoring case; None only when every stored email differs ignoring case |
| `DataService.LocalStore.CreateUser` | src/lib/dataService.js:86-111 | an email already stored (ignoring case) throws and writes nothing; otherwise exactly the new user is appended; with a college id, that college's counters become the counts over the new user list, and a missing college throws "College not found" after the user is stored; sessions, feedback, configs and questions never change |
| `DataService.LocalStore.UpdateUser` | src/lib/dataService.js:113-124 | an unknown id throws "User not found" and changes nothing; otherwise that user becomes `{...user, ...updates}` and is returned |
| `DataService.LocalStore.DeleteUser` | src/lib/dataService.js:126-139 | every user with that id is removed; when the first of them had a college, that college's counters become the counts over the remaining users (a missing college throws after the removal), otherwise the colleges are untouched |
| `DataService.LocalStore.CreateCollege` | src/lib/dataService.js:158-179 | a code already stored (ignoring case) throws and writes nothing; otherwise exactly the new college is appended |
| `DataService.LocalStore.UpdateCollege` | src/lib/dataService.js:181-192 | an unknown id throws "College not found"; otherwise that college is merged with the updates and returned |
| `DataService.LocalStore.DeleteCollege` | src/lib/dataService.js:194-198 | exactly the colleges with that id are removed; nothing else changes |
| `DataService.CollegeCounts` | src/lib/dataService.js:200-207 | adminCount, trainerCount and sessionCount are the numbers of the college's admins, trainers and sessions |
| `DataService.LocalStore.UpdateCounts` | src/lib/dataService.js:200-210 | the college's three counters are overwritten with those numbers; a missing college throws |
| `DataService.LocalStore.CreateSession` | src/lib/dataService.js:241-263 | exactly the new session is appended; with a college id that college's counters become the counts including it and a missing college throws "College not found", without one the colleges are untouched and the session is returned |
| `DataService.LocalStore.UpdateSession` | src/lib/dataService.js:265-276 | an unknown id throws "Session not found"; otherwise that session is merged with the updates |
| `DataService.LocalStore.DeleteSession` | src/lib/dataService.js:278-288 | every session with that id is removed; the college of the first of them gets its counters recounted over the remaining sessions (a missing college throws); users, feedback, configs and questions are untouched |
| `DataService.FeedbackStats` | src/lib/dataService.js:290-296 | submissionCount is the number of the session's feedbacks; averageRating is 0 when it has none and otherwise their overall-rating sum divided by that number |
| `DataService.LocalStore.UpdateStats` | src/lib/dataService.js:290-299 | the session is merged with those two fields; an unknown session throws |
| `DataService.LocalStore.CreateFeedback` | src/lib/dataService.js:330-362 | responses that are not an array throw; otherwise the feedback is appended and, with a session id, that session is merged with the stats over the new feedback list (an unknown session throws "Session not found" and the submitted list is not touched); on success the session id ends in the submitted list, at most once, and the list stays duplicate-free |
| `DataService.LocalStore.ConfigIndexByCollege` | src/lib/dataService.js:379-382 | the first config of that college, None when there is none |
| `DataService.LocalStore.UpsertConfig` | src/lib/dataService.js:411-418 | a college without a config gets exactly one new config; otherwise the existing config, found again by its id, is merged with the data |
| `DataService.LocalStore.AllQuestions` | src/lib/dataService.js:425-428 | the questions sorted ascending by order, a permutation of the stored list |
| `DataService.LocalStore.CreateQuestion` | src/lib/dataService.js:435-448 | the sorted list is stored with the new question last, numbered one past the current count |
| `DataService.LocalStore.UpdateQuestion` | src/lib/dataService.js:450-461 | an unknown id throws "Question not found"; otherwise the sorted list is stored with that question merged |
| `DataService.LocalStore.DeleteQuestion` | src/lib/dataService.js:463-467 | exactly the questions with that id leave the (sorted) list |
| `MockAuth.LoginDecision` | src/lib/mockAuth.js:23-44 | the chain of login outcomes, each as an if-and-only-if: no user found gives "User not found", a wrong password "Invalid password", an inactive account "Account is deactivated", and otherwise success with the user minus its password |
| `MockAuth.LoginFindsByEmail` | src/lib/mockAuth.js:23-44 | a successful login signs in a stored user whose email equals the given one ignoring case, without its password |
| `MockAuth.RedirectPath` | src/lib/mockAuth.js:74-85 | superAdmin, collegeAdmin and trainer go to their own dashboards, any other role to /login |
| `MockAuth.RedirectPathsDistinct` | src/lib/mockAuth.js:74-85 | the three dashboards are distinct: two roles that reach a dashboard reach the same one only if they are the same role |
| `MockAuth.AuthSession.constructor` | src/lib/mockAuth.js:11-20 | a fresh session has no signed-in user |
| `MockAuth.AuthSession.Login` | src/lib/mockAuth.js:23-44 | the outcome is LoginDecision on the lookup; only a success stores the user (without password), every failure leaves the stored user unchanged |
| `MockAuth.AuthSession.Logout` | src/lib/mockAuth.js:47-54 | after logout there is no user and isAuthenticated is false |
| `MockAuth.AuthSession.UserRole` | src/lib/mockAuth.js:57-60 | the user's role when it is truthy, otherwise null (also when signed out) |
| `MockAuth.AuthSession.UpdateCurrentUser` | src/lib/mockAuth.js:88-95 | signed out: null and nothing stored; otherwise `{...user, ...updates}` is stored and returned |
| `MockAuth.HasRoleFacts` | src/lib/mockAuth.js:63-71 | a signed-out session has no role, and asking with a one-element array is the same as asking for that role |
| `ProtectedRoute.Guard` | src/components/auth/ProtectedRoute.jsx:13-50 | loading shows the loader, no user goes to /login, and the children are rendered exactly when the role list is empty or includes the user's role |
| `ProtectedRoute.DeniedGoesToOwnDashboard` | src/components/auth/ProtectedRoute.jsx:27-47 | a denied user is redirected where login sends that role; a missing, empty or "guest" role goes to /login |
| `ProtectedRoute.DeniedNeverRenders` | src/components/auth/ProtectedRoute.jsx:27-47 | a denied user is always redirected, to /login or to one of the three dashboards, never shown the route |
| `QuestionCategories.FindCategory` | src/constants/questionCategories.js:20 | `find(c => c.value === value)`: the first category with that value, None exactly when no category has it |
| `QuestionCategories.CategoryLabel` | src/constants/questionCategories.js:19-22 | a known value maps to its category's label and an unknown value is returned unchanged |
| `QuestionCategories.ValuesDistinct` | src/constants/questionCategories.js:8-16 | the seven category values are pairwise distinct |
| `QuestionCategories.DefaultIsCategory` | src/constants/questionCategories.js:15-25 | the default category "overall" is one of the categories and its label is "Overall" |
| `ConvertTrainer.RenameColumn` | public/convertTrainer.py:14-21 | Id, Full name, Domain and Specialization get their new names; every other column (email included) keeps its name |
| `ConvertTrainer.Positions` | public/convertTrainer.py:24 | the positions of every column with that name, and only those |
| `ConvertTrainer.SetColumn` | public/convertTrainer.py:24-25 | `df[name] = values` overwrites every column of that name, or appends one column when there is none; every other cell is kept |
| `ConvertTrainer.RowRecord` | public/convertTrainer.py:28 | one record has exactly the table's column names as keys |
| `ConvertTrainer.LastWins` | public/convertTrainer.py:28 | the value a record holds for a name is the value of one of the columns so named |
| `ConvertTrainer.RecordOfUnique` | public/convertTrainer.py:28 | for a column named once, the record holds that column's cell |
| `ConvertTrainer.Prepared` | public/convertTrainer.py:21-25 | the renamed table with the password and topics columns is well formed, as many rows, no fewer columns |
| `ConvertTrainer.DerivedColumns` | public/convertTrainer.py:21-25 | its columns are the renamed columns followed by whichever of password and topics they lacked |
| `ConvertTrainer.PreparedRow` | public/convertTrainer.py:24-25 | in every row each topics cell is an empty list, each password cell is the row's trainer_id, every other cell as read |
| `ConvertTrainer.Records` | public/convertTrainer.py:28 | one record per row, each the row's record over the prepared columns |
| `ConvertTrainer.Convert` | public/convertTrainer.py:11-28 | the script fails exactly when `df["trainer_id"]` does not name one column after the rename; otherwise it gives the records |
| `ConvertTrainer.DerivedFields` | public/convertTrainer.py:24-25 | every record has an empty topics list and its password equals its trainer_id |
| `ConvertTrainer.TrainerIdOnce` | public/convertTrainer.py:24-25 | adding the derived columns keeps trainer_id named once and at its place |
| `ConvertTrainer.KeptColumn` | public/convertTrainer.py:14-28 | a column the rename leaves alone and that is named once keeps its name and its value in every record |
| `TicketService.CreateTicket` | src/services/superadmin/ticketService.js:20-35 | a new ticket is stored open, with empty admin notes, no resolvedAt, both timestamps set to the creation time and the caller's fields kept |
| `TicketService.WithStatus` | src/services/superadmin/ticketService.js:81-92 | status, notes and updatedAt are replaced; resolvedAt is stamped exactly when the new status is resolved or closed and otherwise kept; nothing else changes |
| `TicketService.UpdateTicketStatus` | src/services/superadmin/ticketService.js:81-99 | updating a missing ticket fails; otherwise only that ticket changes, as WithStatus says |
| `TicketService.DeleteTicket` | src/services/superadmin/ticketService.js:104-112 | exactly that id leaves the store, the other tickets are untouched |
| `TicketService.FinishedNeverOverdue` | src/services/superadmin/ticketService.js:117-118 | resolved or closed tickets are never overdue |
| `TicketService.NoCreationTime` | src/services/superadmin/ticketService.js:117-135 | without createdAt a ticket is not overdue and its age is 0 |
| `TicketService.AgeIsFloor` | src/services/superadmin/ticketService.js:130-135 | the age is the floor of the elapsed days |
| `TicketService.OverdueImpliesAge` | src/services/superadmin/ticketService.js:117-135 | at the same time, overdue implies an age of at least 7 days; age is non-negative when createdAt <= now |
| `TicketsTab.SortedTickets` | src/pages/superadmin/components/TicketsTab.jsx:123-130 | the sorted list is a permutation of the tickets |
| `TicketsTab.SortedIsStablePartition` | src/pages/superadmin/components/TicketsTab.jsx:123-130 | the sorted list is the overdue tickets in input order followed by the others in input order |
| `TicketsTab.FilteredMembers` | src/pages/superadmin/components/TicketsTab.jsx:132-146 | a ticket is shown iff it is in the list and every non-"all" filter and the case-insensitive search on subject, raiser name or raiser email match |
| `TicketsTab.FilteredTickets` | src/pages/superadmin/components/TicketsTab.jsx:132-146 | the shown list is the kept overdue tickets in input order followed by the kept other tickets in input order, never longer than the list |
| `TicketsTab.NoFilterShowsAll` | src/pages/superadmin/components/TicketsTab.jsx:132-146 | with every filter at "all" and no search the whole sorted list is shown |
| `TicketsTab.StatusCounts` | src/pages/superadmin/components/TicketsTab.jsx:148-155 | open + in-progress + resolved (resolved or closed) never exceed the ticket count, nor does overdue + resolved |
| `TicketsTab.DeleteLocal` | src/pages/superadmin/components/TicketsTab.jsx:117 | deleting removes exactly the tickets with that id from the local list |
| `TicketsTab.ResetFilters` | src/pages/superadmin/components/TicketsTab.jsx:76-79 | reset puts the three filters to "all", clears the search, and then every ticket is shown in sorted order |
| `TrainerService.Add` | src/services/superadmin/trainerService.js:21-48 | an undefined trainer_id throws in the duplicate query; a stored trainer_id is rejected with "Trainer with ID … already exists."; any other undefined field throws in the write; otherwise exactly one document is appended with the given fields (topics defaulting to []) and the result returns its id, trainer_id, name and email |
| `TrainerService.DuplicateBeforeIncomplete` | src/services/superadmin/trainerService.js:24-29 | a stored trainer_id is reported as a duplicate even when the rest of the row is missing |
| `TrainerService.AddKeepsUnique` | src/services/superadmin/trainerService.js:21-48 | adding never stores a second trainer with the same trainer_id; the stored ids grow by the new id exactly when the add succeeds |
| `TrainerService.BatchPrefix` | src/services/superadmin/trainerService.js:126-137 | each trainer of a batch is added against the collection the earlier ones left |
| `TrainerService.BatchCounts` | src/services/superadmin/trainerService.js:120-140 | every trainer of a batch lands in exactly one of success and errors; the collection only grows, by the trainers that succeeded |
| `TrainerService.BatchKeepsUnique` | src/services/superadmin/trainerService.js:120-140 | a batch keeps trainer ids unique and stores the id of every complete trainer, so a repeated id is stored once |
| `TrainerService.RepeatRejected` | src/services/superadmin/trainerService.js:126-137 | a trainer whose trainer_id an earlier complete trainer of the batch carried lands in errors as a duplicate, and nothing else changes |
| `TrainerService.StoredStays` | src/services/superadmin/trainerService.js:120-140 | once a complete trainer's id is stored it stays stored through the rest of the batch |
| `TrainerService.ApplyEdit` | src/services/superadmin/trainerService.js:51-58 | the edited trainer keeps its document id and trainer_id and takes the new name, email, domain, specialisation and topics |
| `TrainerService.UpdateIn` | src/services/superadmin/trainerService.js:51-58 | only the trainer with that document id changes |
| `TrainerService.DeleteIn` | src/services/superadmin/trainerService.js:66-70 | deleting by document id keeps exactly the other trainers |
| `TrainerService.GetAllTrainers` | src/services/superadmin/trainerService.js:77-100 | at most limitCount trainers after the cursor; hasMore exactly when the page is full; lastDoc is the page's last trainer, and null exactly when the page is empty |
| `TrainerService.PageEndsAtCursor` | src/services/superadmin/trainerService.js:86-93 | a non-empty page is the slice of the collection ending at its cursor |
| `TrainerService.PageAfter` | src/services/superadmin/trainerService.js:81-83 | the page after a cursor starts right behind it |
| `TrainerService.PagesContinue` | src/services/superadmin/trainerService.js:77-100 | a page without hasMore reaches the end of the collection, and the next page continues exactly where the previous one ended |
| `TrainerService.TrainerStore.AddTrainer` | src/services/superadmin/trainerService.js:21-48 | the store's add returns and stores exactly what Add says |
| `TrainerService.TrainerStore.AddTrainersBatch` | src/services/superadmin/trainerService.js:120-140 | the loop with its `try`/`catch` computes exactly Batch: the final collection, success list and error list |
| `TrainerService.TrainerStore.UpdateTrainer` | src/services/superadmin/trainerService.js:51-62 | updating a missing document throws and changes nothing; otherwise only that trainer is edited |
| `TrainerService.TrainerStore.DeleteTrainer` | src/services/superadmin/trainerService.js:66-73 | deletion removes the document if present and succeeds either way |
| `TrainersTab.SearchMembers` | src/pages/superadmin/components/TrainersTab.jsx:85-93 | the search keeps exactly the trainers whose name, email, domain or trainer_id contains the lower-cased query |
| `TrainersTab.EmptySearchKeepsAll` | src/pages/superadmin/components/TrainersTab.jsx:85-93 | an empty search keeps every trainer, in order |
| `TrainersTab.ParseTopics` | src/pages/superadmin/components/TrainersTab.jsx:134-137 | the topics field becomes non-empty pieces containing no comma |
| `TrainersTab.TopicsRoundTrip` | src/pages/superadmin/components/TrainersTab.jsx:110-137 | clean topics shown joined with ", " and re-split on save come back unchanged |
| `TrainersTab.EditForm` | src/pages/superadmin/components/TrainersTab.jsx:103-116 | the edit form carries the trainer's fields and an empty password |
| `TrainersTab.Save` | src/pages/superadmin/components/TrainersTab.jsx:118-166 | a blank name, trainer_id or email is refused; a new trainer without a password is refused; otherwise an edit sends an update for the edited document with the parsed topics, and a create sends the input with its password |
| `TrainersTab.EditUnchangedIsNoOp` | src/pages/superadmin/components/TrainersTab.jsx:103-161 | opening the edit dialog on a clean trainer and saving without changes leaves the trainer as it was |
| `TrainersTab.LocalEditOnlyTouchesEdited` | src/pages/superadmin/components/TrainersTab.jsx:159-161 | after an edit only the edited trainer changes in the tab's list; it keeps its id and trainer_id |
| `TrainersTab.FieldStr` | src/pages/superadmin/components/TrainersTab.jsx:202-207 | a field of an uploaded record is read only when it is a string |
| `TrainersTab.InputOf` | src/pages/superadmin/components/TrainersTab.jsx:202-207 | an array element that is not an object never makes a complete trainer |
| `TrainersTab.BatchInputs` | src/pages/superadmin/components/TrainersTab.jsx:195-207 | anything but an array is rejected with "JSON must be an array of trainer objects"; an array becomes one trainer input per element, in order |
| `SeedSessions.Make` | src/services/superadmin/seedSessions.js:161-167 | a combination takes the course, the batch, and the two middle keys by level: department then year as written, year then department once corrected |
| `SeedSessions.AndThen` | src/services/superadmin/seedSessions.js:155-174 | an error met during the walk ends it (the first error is the result); otherwise the combinations found so far are kept and the new ones are appended |
| `SeedSessions.AndThenAssoc` | src/services/superadmin/seedSessions.js:155-174 | how the walk's pieces are grouped does not change the result |
| `SeedSessions.Combinations` | src/services/superadmin/seedSessions.js:150-153 | a missing or falsy `courses` gives no combinations and no error |
| `SeedSessions.PushLeaf` | src/services/superadmin/seedSessions.js:160-169 | the innermost `forEach` appends the batch combinations of one entry to the list so far, or stops on an error |
| `SeedSessions.PushOuter` | src/services/superadmin/seedSessions.js:157-171 | the middle loop appends every inner entry's combinations in order |
| `SeedSessions.PushCourse` | src/services/superadmin/seedSessions.js:155-173 | one course's entries are appended in order |
| `SeedSessions.ExtractCombinations` | src/services/superadmin/seedSessions.js:150-177 | the nested loops pushing onto one list compute exactly the recursive enumeration `Combinations`, including an error thrown partway |
| `SeedSessions.BatchList` | src/services/superadmin/seedSessions.js:161-168 | one combination per batch, in batch order, each naming its course, year and department |
| `SeedSessions.CorrectedReadsSaved` | src/services/superadmin/seedSessions.js:150-177 | walked course → year → department → batches, a configuration in the saved shape never throws and yields its typed enumeration |
| `SeedSessions.CorrectedFindsSavedBatches` | src/services/superadmin/seedSessions.js:150-177 | the corrected walk finds exactly the batches of a saved tree, each under its own course, year and department (both directions) |
| `SeedSessions.AsWrittenMissesSaved` | src/services/superadmin/seedSessions.js:156-160 | the code as written looks for `departments` directly under a course, which the saved shape never has, so it finds nothing at all |
| `SeedSessions.AsWrittenReadsOld` | src/services/superadmin/seedSessions.js:150-177 | on the course → department → year shape the code expects, the walk never throws and yields its typed enumeration |
| `SeedSessions.AsWrittenFindsOldBatches` | src/services/superadmin/seedSessions.js:150-177 | on that shape the walk finds exactly the batches of the tree, each under its course, department and year (both directions) |
| `SeedSessions.OneBatchCombinations` | src/services/superadmin/seedSessions.js:150-177 | a saved configuration with one batch gives no combination as written and exactly that batch once corrected |
| `SeedSessions.Scaled` | src/services/superadmin/seedSessions.js:144 | `Math.floor(r * n)` for a draw r in [0, 1) is an index of an n-element list |
| `SeedSessions.PickRandom` | src/services/superadmin/seedSessions.js:144 | the picked value is an element of the list |
| `SeedSessions.GenerateRating` | src/services/superadmin/seedSessions.js:115-123 | the rating lies in the quality tier's range (good 4-5, average 3-4, poor 1-3, anything else 3-4) |
| `SeedSessions.ResponseCountBounds` | src/services/superadmin/seedSessions.js:309 | the response count lies between minResponses and maxResponses when they are in order, and never exceeds the larger of the two |
| `SeedSessions.SourcePoolsValid` | src/services/superadmin/seedSessions.js:24-113 | the seeder's topic, comment and suggestion pools are all non-empty, and the topic domains are Technical, Soft Skills and Tools |
| `SeedSessions.DomainTopics` | src/services/superadmin/seedSessions.js:204 | the domain's topics, falling back to Technical, are never empty |
| `SeedSessions.LearnedTopics` | src/services/superadmin/seedSessions.js:204-208 | the topics picked for one answer: as many as asked, each from the domain's list |
| `SeedSessions.CollectTopics` | src/services/superadmin/seedSessions.js:206-207 | the `for` loop pushing picked topics builds exactly LearnedTopics |
| `SeedSessions.AnswerFor` | src/services/superadmin/seedSessions.js:186-227 | each answer carries the question's id and type, and at most five draws are used |
| `SeedSessions.Answers` | src/services/superadmin/seedSessions.js:186-228 | one answer per question |
| `SeedSessions.AnswersTyped` | src/services/superadmin/seedSessions.js:186-228 | the answers follow the question order, and each has the question's id and type |
| `SeedSessions.AnswersInTier` | src/services/superadmin/seedSessions.js:188-202 | every rating lies in the tier's range; every text answer is blank or comes from the tier's comment pool |
| `SeedSessions.Stored` | src/services/superadmin/seedSessions.js:185-237 | the first n iterations store at most n responses |
| `SeedSessions.StoredAll` | src/services/superadmin/seedSessions.js:185-237 | when no add throws, every iteration stores its response |
| `SeedSessions.StoredIndices` | src/services/superadmin/seedSessions.js:229-236 | each stored response comes from an earlier iteration whose add did not throw |
| `SeedSessions.StoredOrdered` | src/services/superadmin/seedSessions.js:185-237 | stored responses keep the order of their iterations |
| `SeedSessions.StoredAnswers` | src/services/superadmin/seedSessions.js:185-237 | each stored response holds the answers built from its own iteration's draws |
| `SeedSessions.StoredStep` | src/services/superadmin/seedSessions.js:229-236 | a throwing add leaves the list unchanged; otherwise that iteration's response is appended |
| `SeedSessions.GenerateResponses` | src/services/superadmin/seedSessions.js:182-238 | the loop with its `try`/`catch` around each add returns exactly the stored responses |
| `SeedSessions.CollegeCombos` | src/services/superadmin/seedSessions.js:285-299 | never empty; anything other than the single default combination is what the walk found over a configuration that was read |
| `SeedSessions.SavedShapeSeedsDefault` | src/services/superadmin/seedSessions.js:285-299 | as written, every college whose configuration has the saved shape is seeded with only the default B.Tech/CSE/1/A |
| `SeedSessions.SavedShapeSeedsBatches` | src/services/superadmin/seedSessions.js:285-299 | corrected, over a saved configuration that has a batch, the choices are exactly its batches |
| `SeedSessions.SeedOne` | src/services/superadmin/seedSessions.js:302-362 | an iteration fails exactly when creating or closing the session throws; a create failure carries no responses and the create error, a close failure carries the close error and the number of responses already written (counted in the total); otherwise the record names the college, one of the college's combinations, a quality tier and exactly the responses written, at most the maximum |
| `SeedSessions.SeedCollege` | src/services/superadmin/seedSessions.js:285-363 | the sessions draw their combinations from what reading the college configuration gave (the default when that fails or is empty); every planned session is either recorded or logged as an error; the response total is the sum over the records plus the responses of sessions whose close threw; every record is good; error numbers fall within this college's block |
| `SeedSessions.CombosOfStep` | src/services/superadmin/seedSessions.js:281-299 | one more college appends its list of combinations |
| `SeedSessions.StrandedAppend` | src/services/superadmin/seedSessions.js:339-345 | the responses counted for close-failed sessions add up over consecutive runs of planned sessions |
| `SeedSessions.StrandedSplit` | src/services/superadmin/seedSessions.js:339-345 | the count over a prefix of the plan splits into the count before a college's block and the count within it |
| `SeedSessions.NothingStranded` | src/services/superadmin/seedSessions.js:339-345 | when no close throws, no response is counted outside the recorded sessions, so the total is exactly the sum over the records |
| `SeedSessions.BlockAccumulated` | src/services/superadmin/seedSessions.js:281-363 | appending one college's records, errors and response total to the accumulated results keeps every record good, the errors numbered and the total equal to the recorded responses plus the stranded ones |
| `SeedSessions.SeedCollegeSessions` | src/services/superadmin/seedSessions.js:300-363 | for a given non-empty list of combinations, every planned session is either recorded or logged as an error; the response total is the records' responses plus those of close-failed sessions; every record names the college and one of the combinations |
| `SeedSessions.SeedNext` | src/services/superadmin/seedSessions.js:300-363 | one more planned session adds exactly one record or one error, the error numbered with that session; the response total stays the records' responses plus those of close-failed sessions |
| `SeedSessions.ResponsesStep` | src/services/superadmin/seedSessions.js:337-345 | adding a session's outcome to the running total keeps it equal to the records' responses plus those of the close-failed sessions so far |
| `SeedSessions.SeedBlock` | src/services/superadmin/seedSessions.js:281-363 | one pass of the outer loop keeps the accumulated-results invariant, extended by this college's block |
| `SeedSessions.SeedColleges` | src/services/superadmin/seedSessions.js:281-364 | after every college the invariant holds over all planned sessions |
| `SeedSessions.SeedSessionsAndResponses` | src/services/superadmin/seedSessions.js:249-374 | throws 'No colleges found' or 'No trainers found' when either list is empty; otherwise every planned session is recorded or logged, the total is the sum of the recorded responses plus the responses written for sessions whose close then threw, every record names its college, one of that college's combinations and a tier, and the errors are numbered in order within the plan |
| `Dashboard.DurationMinutes` | src/pages/admin/components/CollegeOverviewTab.jsx:298 | a duration that is missing, null, zero or empty counts as 60 minutes, a non-zero number counts as itself, and the result is never zero |
| `Dashboard.KeptFieldValues` | src/pages/admin/components/CollegeSessionsTab.jsx:82-103 | a value is among the kept sessions' field values exactly when some kept session carries it |
| `Dashboard.FieldOptions` | src/pages/admin/components/CollegeSessionsTab.jsx:82-103 | an option list holds, strictly sorted and without repeats, exactly the non-empty values some kept session carries |
| `Dashboard.CountEntry` | src/pages/admin/components/CollegeOverviewTab.jsx:300-304 | one rating entry adds its count to its bucket, its count to the number of ratings and rating times count to the rating sum |
| `Dashboard.AddDistribution` | src/pages/admin/components/CollegeOverviewTab.jsx:300-304 | the loop over one session's distribution leaves the totals the reference fold over its entries gives |
| `Dashboard.AggregateStats` | src/pages/admin/components/CollegeOverviewTab.jsx:292-312 | the loop over the sessions leaves the totals the reference fold over the sessions gives; sessions without compiled statistics add nothing |
| `Dashboard.AddRatingsSnoc` | src/pages/admin/components/CollegeOverviewTab.jsx:300-304 | folding one more entry is one more entry step, the invariant step of the distribution loop |
| `Dashboard.AddRatingsSums` | src/pages/admin/components/CollegeOverviewTab.jsx:300-304 | after a distribution, the number of ratings grew by the sum of its counts, the rating sum by the sum of rating times count, and the response total is untouched |
| `Dashboard.AddRatingsBucket` | src/pages/admin/components/CollegeOverviewTab.jsx:301-302 | each bucket grew by exactly the counts the distribution lists under its key |
| `Dashboard.AccumulateSums` | src/pages/admin/components/CollegeOverviewTab.jsx:292-312 | responses, rating counts and rating sums are the sums over the sessions of what each reports |
| `Dashboard.AccumulateBuckets` | src/pages/admin/components/CollegeOverviewTab.jsx:286-302 | every bucket holds its starting zero plus what each session puts in it |
| `Dashboard.BucketsStayFirst` | src/pages/admin/components/CollegeOverviewTab.jsx:286-302 | in insertion order, the five star buckets stay the first five keys, in order, whatever keys the sessions add |
| `Dashboard.StarMultiple` | src/pages/admin/components/CollegeOverviewTab.jsx:303 | c ratings of an n-star value weigh between c and 5c |
| `Dashboard.StarWeights` | src/pages/admin/components/CollegeOverviewTab.jsx:300-304 | a distribution of star ratings weighs between one and five times its number of ratings |
| `Dashboard.AccumulateInRange` | src/pages/admin/components/CollegeOverviewTab.jsx:292-312 | with star ratings only, the accumulated rating sum lies between one and five times the rating count |
| `Dashboard.AverageOf` | src/pages/admin/components/CollegeOverviewTab.jsx:315-318 | no average exactly when nothing was rated |
| `Dashboard.AverageIsStar` | src/pages/admin/components/CollegeOverviewTab.jsx:315-318 | an average shown from star ratings is between 1 and 5 |
| `Dashboard.AddTopicsCount` | src/pages/admin/components/CollegeOverviewTab.jsx:337-342 | adding a session's topics keeps one entry per name and adds each topic's count to its name |
| `Dashboard.TopicTotalsCount` | src/pages/admin/components/CollegeOverviewTab.jsx:337-342 | each topic name appears once in the totals, with the sum of its counts over all sessions |
| `Dashboard.TopEntriesShape` | src/pages/admin/components/CollegeOverviewTab.jsx:343-346 | the top list has at most n entries, largest count first, each a name of the map with the count the map holds for it |
| `Dashboard.FromLevel` | src/pages/admin/components/CollegeOverviewTab.jsx:416-453 | stats read from a cache document keep its counters, show no average exactly when nothing was rated and otherwise sum over count, and show five empty buckets when it has none |
| `Dashboard.FromSessionsSums` | src/pages/admin/components/CollegeOverviewTab.jsx:290-348 | stats aggregated from sessions count every session, sum the reported responses and ratings, fill each bucket from the sessions and show no average exactly when nothing was rated |
| `Dashboard.ResetFilters` | src/pages/admin/components/CollegeOverviewTab.jsx:105-115 | resetting puts every filter back to all |
| `Dashboard.SortByDate` | src/pages/admin/components/CollegeOverviewTab.jsx:489 | the trend rows are ordered by date and are a permutation of the input |
| `Dashboard.ResponseTrendShape` | src/pages/admin/components/CollegeOverviewTab.jsx:480-490 | the chart has one row per trends entry, each carrying a trends entry's responses, in date order |
| `Dashboard.PushComments` | src/pages/admin/components/CollegeOverviewTab.jsx:587-595 | comments are appended after the kept ones only while fewer than three are kept |
| `Dashboard.AtMostTwoPerSession` | src/pages/admin/components/CollegeOverviewTab.jsx:587 | one session adds at most two comments to its trainer's tally |
| `Dashboard.TallyAllShape` | src/pages/admin/components/CollegeOverviewTab.jsx:557-599 | every tally belongs to a non-empty trainer id some session carries and keeps at most three comments |
| `Dashboard.TopTrainersShape` | src/pages/admin/components/CollegeOverviewTab.jsx:557-610 | at most five trainers, best average first, each with a non-empty trainer id some session carries, at most three comments each |
| `Dashboard.SessionStats` | src/pages/admin/components/CollegeSessionsTab.jsx:71-77 | total is the number of sessions, active and inactive count the sessions with that status, and together they never exceed the total |
| `Dashboard.TabAndSearch` | src/pages/admin/components/CollegeSessionsTab.jsx:131-139 | the active and inactive tabs keep exactly the sessions with that status, the other tab keeps all, and a topic or course holding the query is kept by the search |
| `Dashboard.NewestFirst` | src/pages/admin/components/CollegeSessionsTab.jsx:131-161 | the list holds exactly the kept sessions, each as often as the input has it, newest first |
| `FilterOptions.AvailableCourses` | src/pages/admin/components/CollegeOverviewTab.jsx:168-171 | the course options are exactly the configured course keys |
| `FilterOptions.AvailableYears` | src/pages/admin/components/CollegeOverviewTab.jsx:175-184 | the year options are, strictly sorted, exactly the year keys of the selected course; none while the course is all or missing |
| `FilterOptions.AvailableDepartments` | src/pages/admin/components/CollegeOverviewTab.jsx:186-208 | the department options are strictly sorted and empty while the course is all |
| `FilterOptions.DepartmentsOffered` | src/pages/admin/components/CollegeOverviewTab.jsx:186-208 | a department is offered exactly when the selected year, or any year when the year is all, lists it |
| `FilterOptions.AvailableBatches` | src/pages/admin/components/CollegeOverviewTab.jsx:210-240 | the batch options are strictly sorted and empty while the course is all |
| `FilterOptions.YearBatchesOffered` | src/pages/admin/components/CollegeOverviewTab.jsx:221-234 | within one year, a batch is scanned exactly when the selected department, or any department, lists it |
| `FilterOptions.ScannedIsInCourse` | src/pages/admin/components/CollegeOverviewTab.jsx:215-234 | every scanned batch belongs to the selected years and departments of the course |
| `FilterOptions.InCourseIsScanned` | src/pages/admin/components/CollegeOverviewTab.jsx:215-234 | every batch of the selected years and departments of the course is scanned |
| `FilterOptions.BatchesOffered` | src/pages/admin/components/CollegeOverviewTab.jsx:210-240 | a batch is offered exactly when one of the selected years and departments lists it |
| `CollegeOverview.ResetIsDefault` | src/pages/admin/components/CollegeOverviewTab.jsx:105-115 | resetting gives the default view, whose cascade is consistent |
| `CollegeOverview.SetCourse` | src/pages/admin/components/CollegeOverviewTab.jsx:652-660 | choosing a course sets it and clears year, department and batch, leaving the other filters alone |
| `CollegeOverview.SetYear` | src/pages/admin/components/CollegeOverviewTab.jsx:680-688 | choosing a year sets it and clears department and batch, leaving the other filters alone |
| `CollegeOverview.SetDepartment` | src/pages/admin/components/CollegeOverviewTab.jsx:710-713 | choosing a department sets it and clears the batch, leaving the other filters alone |
| `CollegeOverview.CascadeKeepsConsistent` | src/pages/admin/components/CollegeOverviewTab.jsx:652-736 | with the year, department and batch selects disabled while the filter above them is all, every change keeps the cascade consistent |
| `CollegeOverview.AvailableProjectCodes` | src/pages/admin/components/CollegeOverviewTab.jsx:244-251 | the project-code options are, strictly sorted, exactly the non-empty project ids of the loaded sessions |
| `CollegeOverview.AggregateStatsFromSessions` | src/pages/admin/components/CollegeOverviewTab.jsx:280-349 | the session loop followed by the topic totals gives the reference aggregation of the sessions |
| `CollegeOverview.StatsTopics` | src/pages/admin/components/CollegeOverviewTab.jsx:337-346 | at most fifteen topics are shown, largest total first, each with the sum of its counts over all sessions |
| `CollegeOverview.Fetch` | src/pages/admin/components/CollegeOverviewTab.jsx:350-401 | without a college nothing changes, the default view drops fetched data, and memoised results are never lost |
| `CollegeOverview.RepeatDoesNotRefetch` | src/pages/admin/components/CollegeOverviewTab.jsx:368-388 | once a filter set is fetched, selecting it again shows the same stats whatever a second fetch would return |
| `CollegeOverview.AggregatedStats` | src/pages/admin/components/CollegeOverviewTab.jsx:405-463 | the default view with a cache shows the cache's stats with fifteen topics; otherwise the fetched stats, or empty stats when there are none |
| `CollegeOverview.ShowsFetchedSessions` | src/pages/admin/components/CollegeOverviewTab.jsx:368-449 | after fetching a new filter set the tab shows exactly the aggregation of the fetched sessions |
| `CollegeOverview.OverviewTab.FetchAnalytics` | src/pages/admin/components/CollegeOverviewTab.jsx:350-401 | the tab's memo and shown data move as the reference fetch step says |
| `CollegeOverview.OverviewTopTrainers` | src/pages/admin/components/CollegeOverviewTab.jsx:263-267 | the unused topTrainers memo is computed over the constant empty session list, so it is always empty |
| `CollegeOverview.OverviewMemoAlwaysEmpty` | src/pages/admin/components/CollegeOverviewTab.jsx:263-610 | one session with a trainer already yields a top-trainer row, yet the unused topTrainers memo holds none |
| `CollegeSessionsTab.Reset` | src/pages/admin/components/CollegeSessionsTab.jsx:205-206 | the Reset button puts every filter back to all and clears the search |
| `CollegeSessionsTab.Options` | src/pages/admin/components/CollegeSessionsTab.jsx:80-106 | each option list is strictly sorted, without repeats |
| `CollegeSessionsTab.OptionsDrawnFromAbove` | src/pages/admin/components/CollegeSessionsTab.jsx:80-106 | a value is offered exactly when it is non-empty and some session matching the filters above that list carries it: courses from all sessions, years under the course, departments under course and year, batches under course, year and department |
| `CollegeSessionsTab.SetCourse` | src/pages/admin/components/CollegeSessionsTab.jsx:221 | choosing a course sets it and clears year, department and batch, keeping trainer and date range |
| `CollegeSessionsTab.SetYear` | src/pages/admin/components/CollegeSessionsTab.jsx:237 | choosing a year sets it and clears department and batch, keeping the rest |
| `CollegeSessionsTab.SetDepartment` | src/pages/admin/components/CollegeSessionsTab.jsx:254 | choosing a department sets it and clears the batch, keeping the rest |
| `CollegeSessionsTab.CascadeKeepsConsistent` | src/pages/admin/components/CollegeSessionsTab.jsx:205-299 | with the year, department and batch selects disabled while the filter above is all, reset and every change keep the cascade consistent |
| `CollegeSessionsTab.FilteredSessions` | src/pages/admin/components/CollegeSessionsTab.jsx:130-162 | the list holds exactly the sessions of the tab that match the search and every filter, each as often as loaded, newest first |
| `CollegeSessionsTab.ResetListsEverything` | src/pages/admin/components/CollegeSessionsTab.jsx:130-206 | after Reset the all tab lists every session |
| `CollegeAnalytics.DateKeyInjective` | src/pages/superadmin/components/CollegeAnalytics.jsx:138 | within one month, distinct days give distinct trend keys |
| `CollegeAnalytics.SetAllFind` | src/pages/superadmin/components/CollegeAnalytics.jsx:136-150 | after one counter loop, a day the loop mentions holds the last count listed for it in that counter, other counters kept (0 for a new day); other days are untouched |
| `CollegeAnalytics.TrendDocPoint` | src/pages/superadmin/components/CollegeAnalytics.jsx:134-152 | after a month document, a day it mentions holds the document's counts, an unmentioned counter keeps its value or 0, and unmentioned days are untouched |
| `CollegeAnalytics.FilteredExactly` | src/pages/superadmin/components/CollegeAnalytics.jsx:301-329 | a session is listed exactly when it is loaded, closed, compiled and matches every filter that is not all |
| `CollegeAnalytics.NavigateIgnores` | src/pages/superadmin/components/CollegeAnalytics.jsx:342-351 | navigation ignores the department filter, the year and batch below a missing course, and the batch below a missing year |
| `CollegeAnalytics.NavigateReachesBatch` | src/pages/superadmin/components/CollegeAnalytics.jsx:342-351 | with course, year and batch all present in the cache, the view is the batch's stats |
| `CollegeAnalytics.AggregatedStats` | src/pages/superadmin/components/CollegeAnalytics.jsx:332-471 | the hierarchical view with a cache shows the navigated level with ten topics; otherwise the aggregation of the filtered sessions without topics, or empty stats when none pass |
| `CollegeAnalytics.HierarchicalTopics` | src/pages/superadmin/components/CollegeAnalytics.jsx:367-374 | the hierarchical view shows at most ten topics, largest first, each with the count the level holds for it |
| `CollegeAnalytics.DynamicViewSums` | src/pages/superadmin/components/CollegeAnalytics.jsx:404-458 | the dynamic view counts every filtered session, sums their responses and fills each bucket with what they put in it |
| `CollegeAnalytics.SetCourse` | src/pages/superadmin/components/CollegeAnalytics.jsx:686-694 | choosing a course sets it and clears department, year and batch, leaving the other filters alone |
| `CollegeAnalytics.SetDepartment` | src/pages/superadmin/components/CollegeAnalytics.jsx:714-722 | choosing a department sets it and clears year and batch, leaving the other filters alone |
| `CollegeAnalytics.SetYear` | src/pages/superadmin/components/CollegeAnalytics.jsx:744-747 | choosing a year sets it and clears the batch, keeping the department |
| `CollegeAnalytics.CascadeKeepsConsistent` | src/pages/superadmin/components/CollegeAnalytics.jsx:684-770 | with the lower selects disabled while the course is all, every change keeps the filters consistent |
| `TrainerOverview.ResetFilters` | src/pages/trainer/components/TrainerOverview.jsx:111-120 | the initial filters and reset put every filter at all |
| `TrainerOverview.DeptOf` | src/pages/trainer/components/TrainerOverview.jsx:177 | a session's department is its branch when it has one, else its department, and is empty exactly when both are |
| `TrainerOverview.LevelOptions` | src/pages/trainer/components/TrainerOverview.jsx:152-191 | an option list is strictly sorted and holds exactly the non-empty field values of the sessions matching the filters above it |
| `TrainerOverview.OptionsDrawnFromAbove` | src/pages/trainer/components/TrainerOverview.jsx:152-191 | courses come from the selected college's sessions, years from those of the course too, departments (branch or department) from those of the year too, batches from those of the department too |
| `TrainerOverview.CollegeIds` | src/pages/trainer/components/TrainerOverview.jsx:144 | the college ids are distinct, non-empty, each carried by some session, and every non-empty session college id is among them |
| `TrainerOverview.CollegeName` | src/pages/trainer/components/TrainerOverview.jsx:146-147 | a college is named by the store when it has a non-empty name there, else Unknown College |
| `TrainerOverview.AvailableColleges` | src/pages/trainer/components/TrainerOverview.jsx:143-149 | one entry per distinct non-empty college id of the sessions, each named by the store or Unknown College |
| `TrainerOverview.SetCollege` | src/pages/trainer/components/TrainerOverview.jsx:367 | choosing a college sets it and clears course, department, year and batch |
| `TrainerOverview.SetCourse` | src/pages/trainer/components/TrainerOverview.jsx:381 | choosing a course sets it and clears year, department and batch, keeping college and date range |
| `TrainerOverview.SetYear` | src/pages/trainer/components/TrainerOverview.jsx:395 | choosing a year sets it and clears department and batch, keeping the rest |
| `TrainerOverview.SetDepartment` | src/pages/trainer/components/TrainerOverview.jsx:412 | choosing a department sets it and clears the batch, keeping the rest |
| `TrainerOverview.CascadeKeepsConsistent` | src/pages/trainer/components/TrainerOverview.jsx:367-444 | with the lower selects disabled while the filter above is all, every change keeps the cascade consistent |
| `TrainerOverview.FilteredExactly` | src/pages/trainer/components/TrainerOverview.jsx:196-214 | a session is selected exactly when it is closed, compiled and matches every filter that is not all |
| `TrainerOverview.FilteredValuesOffered` | src/pages/trainer/components/TrainerOverview.jsx:152-214 | every selected session's course, year, department and batch are among the options offered, so a selection never hides its own values |
| `TrainerOverview.AggregatedStats` | src/pages/trainer/components/TrainerOverview.jsx:217-296 | the default view with a cache shows the cache's stats, every other view the aggregation of the selected sessions, and neither lists topics |
| `TrainerOverview.FilteredViewSums` | src/pages/trainer/components/TrainerOverview.jsx:240-295 | outside the cached view the card counts the selected sessions, sums their responses and ratings, fills each bucket from them and shows an average exactly when something was rated |
| `TrainerOverview.ResponseTrendShape` | src/pages/trainer/components/TrainerOverview.jsx:327-336 | one point per daily entry, each with an entry's parsed day and count, ascending by day when every key parses; no map gives no points |
| `TrainerOverview.TrendPointsFrom` | src/pages/trainer/components/TrainerOverview.jsx:330-334 | every chart point comes from some daily entry |
| `TrainerOverview.TrendOrdered` | src/pages/trainer/components/TrainerOverview.jsx:335 | when every key parses, the points ascend by day |
| `TrainerSessions.FilteredSessions` | src/pages/trainer/components/TrainerSessions.jsx:71-84 | the list holds exactly the sessions of the tab that match the search, newest first |
| `TrainerSessions.AllTabListsEverything` | src/pages/trainer/components/TrainerSessions.jsx:71-84 | the all tab with an empty search lists every session, each as often as loaded |
| `TrainerSessions.ToggleStatus` | src/pages/trainer/components/TrainerSessions.jsx:93-110 | an open session is closed with its statistics compiled; any other is set back to active |
| `TrainerSessions.ToggleFlips` | src/pages/trainer/components/TrainerSessions.jsx:93-110 | the toggle closes an open session with statistics and reopens any other, keeping its id; toggling a closed session twice closes it again |
| `TrainerFeedbackTab.RecentSessions` | src/pages/admin/components/TrainerFeedbackTab.jsx:31-42 | the recent list holds exactly the sessions dated on or after the cutoff twenty days back, newest first |
| `TrainerFeedbackTab.TrainerIds` | src/pages/admin/components/TrainerFeedbackTab.jsx:50 | the trainer ids are distinct and are exactly the non-empty trainer ids the sessions carry |
| `TrainerFeedbackTab.Later` | src/pages/admin/components/TrainerFeedbackTab.jsx:82-84 | the later of a last visit and a date is one of them and at least both |
| `TrainerFeedbackTab.VisitsSums` | src/pages/admin/components/TrainerFeedbackTab.jsx:53-70 | the gathered counts are the number of the trainer's sessions and the sums of their responses, rating weights and rating counts |
| `TrainerFeedbackTab.VisitAdds` | src/pages/admin/components/TrainerFeedbackTab.jsx:60-68 | visiting a session adds it to the gathered sessions exactly when the trainer taught it |
| `TrainerFeedbackTab.VisitsLast` | src/pages/admin/components/TrainerFeedbackTab.jsx:82-84 | the last visit is the latest date among the trainer's sessions, present exactly when the trainer has one |
| `TrainerFeedbackTab.LatestSnoc` | src/pages/admin/components/TrainerFeedbackTab.jsx:82-84 | one more session moves the latest date to its own when it is later |
| `TrainerFeedbackTab.FindTrainer` | src/pages/admin/components/TrainerFeedbackTab.jsx:52 | a found trainer is in the list with the id asked for; none is found only when no trainer has that id |
| `TrainerFeedbackTab.AvgHundredths` | src/pages/admin/components/TrainerFeedbackTab.jsx:72 | the shown average is the rating mean rounded to hundredths, 0.00 when nothing was rated |
| `TrainerFeedbackTab.TrainerAnalytics` | src/pages/admin/components/TrainerFeedbackTab.jsx:45-89 | the loops over trainer ids, sessions and distributions produce the reference table |
| `TrainerFeedbackTab.TallyVisits` | src/pages/admin/components/TrainerFeedbackTab.jsx:53-70 | the pass over the sessions for one trainer gives the reference counts |
| `TrainerFeedbackTab.DistributionSums` | src/pages/admin/components/TrainerFeedbackTab.jsx:64-67 | the distribution loop sums rating times count and the counts |
| `TrainerFeedbackTab.AnalyticsRows` | src/pages/admin/components/TrainerFeedbackTab.jsx:45-89 | one row per trainer with a session at the college, best average first |
| `TrainerFeedbackTab.RowForSums` | src/pages/admin/components/TrainerFeedbackTab.jsx:74-85 | a trainer's row holds that trainer's session count (at least one), responses, rounded average and a last visit no session of theirs is after |
| `TrainerFeedbackTab.AnalyticsRowSums` | src/pages/admin/components/TrainerFeedbackTab.jsx:50-88 | each row of the table is the row of one trainer with a session |
| `TrainerFeedbackTab.FilteredTrainers` | src/pages/admin/components/TrainerFeedbackTab.jsx:92-97 | a row is kept exactly when its name or specialisation contains the search term ignoring case; an empty term keeps all |
| `TrainerFeedbackTab.CardAverageExceedsFive` | src/pages/admin/components/TrainerFeedbackTab.jsx:121-124 | as written, one response that gave two five-star ratings shows a card average of 10 |
| `TrainerFeedbackTab.CardAverage` | src/pages/admin/components/TrainerFeedbackTab.jsx:121-124 | the corrected card average is absent exactly when there are no statistics or no ratings |
| `TrainerFeedbackTab.CardAverageIsStar` | src/pages/admin/components/TrainerFeedbackTab.jsx:121-124 | with star ratings the corrected card average lies between 1 and 5 |
| `TrainerAnalytics.RatingsCount` | src/pages/superadmin/components/TrainerAnalytics.jsx:68-69 | the stored rating count when non-zero, else the sum of the distribution's counts, else 0 |
| `TrainerAnalytics.Stats` | src/pages/superadmin/components/TrainerAnalytics.jsx:64-80 | no stats without a cache; otherwise its counters and an average that times the rating count gives the rating sum, 0 when nothing was rated |
| `TrainerAnalytics.FallbackCountsTheBuckets` | src/pages/superadmin/components/TrainerAnalytics.jsx:68-76 | with no stored count, a document whose sum matches its star buckets shows an average between 1 and 5 |
| `TrainerAnalytics.RatingData` | src/pages/superadmin/components/TrainerAnalytics.jsx:83-90 | one bar per distribution entry, a permutation of the entries' bars, ascending by rating; none without stats |
| `TrainerAnalytics.RatingDataBars` | src/pages/superadmin/components/TrainerAnalytics.jsx:83-90 | every bar is a distribution entry's bar and the bars count what the distribution counts |
| `TrainerAnalytics.Score` | src/pages/superadmin/components/TrainerAnalytics.jsx:107 | a category score times its count gives its sum, 0 when the count is not positive |
| `TrainerAnalytics.RadarData` | src/pages/superadmin/components/TrainerAnalytics.jsx:93-110 | one point per category in stored order, with its label, its score and a full mark of 5 |
| `TrainerAnalytics.ScoreIsStar` | src/pages/superadmin/components/TrainerAnalytics.jsx:107 | a score whose sum lies between one and five times its count is between 1 and 5 |
| `TrainerAnalytics.TrendData` | src/pages/superadmin/components/TrainerAnalytics.jsx:113-123 | no points without daily responses; the points ascend by day |
| `TrainerAnalytics.TrendDataPoints` | src/pages/superadmin/components/TrainerAnalytics.jsx:113-123 | one point per daily entry, with its count and that day's sessions or 0 |
| `TrainerAnalytics.ThisMonthIsTotal` | src/pages/superadmin/components/TrainerAnalytics.jsx:208 | the This Month figure is the total of the daily responses |
| `FacultyReport.AverageEntry` | src/components/admin/FacultyReport.tsx:108-111 | an entry's average times its count gives its sum, 0 for no ratings, question and count kept |
| `FacultyReport.EntriesSnoc` | src/components/admin/FacultyReport.tsx:75-76 | the responses of one more submission come after those of the earlier ones |
| `FacultyReport.ReadRating` | src/components/admin/FacultyReport.tsx:81-95 | reading a rating of a known question updates the totals, the five-bucket array and the question's entry as the reference step says |
| `FacultyReport.ReadResponse` | src/components/admin/FacultyReport.tsx:76-104 | the inner loop body reads one response as the reference step says |
| `FacultyReport.ReadSubmission` | src/components/admin/FacultyReport.tsx:76-104 | the inner loop over one submission extends the reference fold by that submission's responses |
| `FacultyReport.GenerateReport` | src/components/admin/FacultyReport.tsx:55-122 | the nested loops, the averages and the comment order give the reference report |
| `FacultyReport.InEntries` | src/components/admin/FacultyReport.tsx:75-76 | a response is read exactly when it belongs to one of the submissions |
| `FacultyReport.StepTotals` | src/components/admin/FacultyReport.tsx:77-83 | one response adds one rating and its value to the totals exactly when its question is known and it has a rating |
| `FacultyReport.StepBucket` | src/components/admin/FacultyReport.tsx:85-87 | one response adds one to bucket b exactly when it is a known rating equal to b + 1 |
| `FacultyReport.StepComments` | src/components/admin/FacultyReport.tsx:98-103 | one response adds its comment exactly when its question is known and the comment is not blank |
| `FacultyReport.StepQuestions` | src/components/admin/FacultyReport.tsx:90-94 | one known rating adds itself to its question's entry, creating it when missing; other responses leave the entries alone |
| `FacultyReport.FoldTotals` | src/components/admin/FacultyReport.tsx:75-105 | the response total counts the ratings of known questions and the rating total adds them up |
| `FacultyReport.FoldBucket` | src/components/admin/FacultyReport.tsx:85-87 | bucket k counts the ratings of known questions equal to k |
| `FacultyReport.PutTally` | src/components/admin/FacultyReport.tsx:90-94 | counting one more rating in a question's entry adds that rating |
| `FacultyReport.QuestionStep` | src/components/admin/FacultyReport.tsx:90-94 | one rating of a question makes its entry count and add one more |
| `FacultyReport.QuestionOther` | src/components/admin/FacultyReport.tsx:90-94 | a response that is not a rating of a question leaves its entry alone |
| `FacultyReport.FoldQuestion` | src/components/admin/FacultyReport.tsx:75-105 | a question has an entry exactly when it has a rating; the entry counts and adds up its ratings and holds the question |
| `FacultyReport.FoldComments` | src/components/admin/FacultyReport.tsx:98-103 | the collected comments are the non-blank comments of known questions in reading order, each with its submission's date |
| `FacultyReport.FoldUnknown` | src/components/admin/FacultyReport.tsx:77-78 | responses to unknown questions change nothing |
| `FacultyReport.ReportTotals` | src/components/admin/FacultyReport.tsx:116-118 | the total is the number of known ratings and the average their mean, 0 when there are none |
| `FacultyReport.ReportDistribution` | src/components/admin/FacultyReport.tsx:68-87 | five buckets, bucket k counting the known ratings equal to k; other values count only in the total |
| `FacultyReport.AveragesOf` | src/components/admin/FacultyReport.tsx:108-111 | taking the averages turns each entry's sum into the mean of its ratings |
| `FacultyReport.ReportQuestion` | src/components/admin/FacultyReport.tsx:89-111 | one entry per question with a rating, holding the number of its ratings, their mean and the question |
| `FacultyReport.NewestTen` | src/components/admin/FacultyReport.tsx:114-121 | the shown comments are ten of the collected ones, or all when fewer, newest first |
| `FacultyReport.NewestTenKept` | src/components/admin/FacultyReport.tsx:114-121 | no comment left out is newer than one shown |
| `FacultyReport.CollectedNotBlank` | src/components/admin/FacultyReport.tsx:98 | no collected comment is blank |
| `FacultyReport.ReportComments` | src/components/admin/FacultyReport.tsx:98-121 | at most ten comments, newest first, none blank, drawn from the collected ones, none left out newer than one shown |
| `FacultyReport.ReportIgnoresUnknown` | src/components/admin/FacultyReport.tsx:75-78 | a submission that answers only unknown questions leaves the report unchanged |
| `FacultyReport.QuestionWise` | src/components/admin/FacultyReport.tsx:291-292 | the question-wise list is the entries ordered by question order |
| `AnonymousFeedback.LoadSession` | src/pages/feedback/AnonymousFeedback.jsx:40-70 | a failed read shows the load error, a missing document not found, a session that is not active or whose expiry has passed is closed, and otherwise the form opens on the document |
| `AnonymousFeedback.ClosedStaysClosed` | src/pages/feedback/AnonymousFeedback.jsx:51-62 | a closed session stays closed later, and an open one closes once its expiry time has passed |
| `AnonymousFeedback.RatingChange` | src/pages/feedback/AnonymousFeedback.jsx:81-86 | a rating answer stores the parsed integer with type rating at that index and leaves every other answer alone |
| `AnonymousFeedback.TextChange` | src/pages/feedback/AnonymousFeedback.jsx:88-93 | a text answer stores the text at that index, keeps any recorded type and leaves every other answer alone |
| `AnonymousFeedback.McqChange` | src/pages/feedback/AnonymousFeedback.jsx:95-100 | a choice stores the option with type mcq at that index and leaves every other answer alone |
| `AnonymousFeedback.MultiselectChange` | src/pages/feedback/AnonymousFeedback.jsx:102-113 | a toggle records type multiselect at that index and leaves every other answer alone |
| `AnonymousFeedback.ToggleFlips` | src/pages/feedback/AnonymousFeedback.jsx:102-113 | the toggled option changes state, every other option keeps its state, and a selection without repeats stays so |
| `AnonymousFeedback.ToggleTwice` | src/pages/feedback/AnonymousFeedback.jsx:102-113 | toggling an option twice restores the selected options, exactly when it was not selected before |
| `AnonymousFeedback.ParseNatStr` | src/pages/feedback/AnonymousFeedback.jsx:84 | the decimal text of a natural number parses back to it |
| `AnonymousFeedback.RatingStoredAsInteger` | src/pages/feedback/AnonymousFeedback.jsx:410 | choosing a rating button stores that rating as an integer |
| `AnonymousFeedback.CheckRequired` | src/pages/feedback/AnonymousFeedback.jsx:124-132 | the loop over the required questions passes exactly when every required question has a truthy, non-empty answer |
| `AnonymousFeedback.KindOf` | src/pages/feedback/AnonymousFeedback.jsx:138 | an answer's type is the recorded type, else the question's type, else rating |
| `AnonymousFeedback.FormatAnswersExactly` | src/pages/feedback/AnonymousFeedback.jsx:135-139 | the answers sent are exactly those of the questions with a truthy value |
| `AnonymousFeedback.FormatAnswersCount` | src/pages/feedback/AnonymousFeedback.jsx:135-139 | one answer per answered question, in question order |
| `AnonymousFeedback.RequiredAreSent` | src/pages/feedback/AnonymousFeedback.jsx:124-139 | a form that passes the required check sends an answer for every required question |
| `AnonymousFeedback.GetDeviceId` | src/pages/feedback/AnonymousFeedback.jsx:14-22 | the stored device id when there is a non-empty one, else a new one that is stored; no other storage entry changes |
| `AnonymousFeedback.DeviceIdStable` | src/pages/feedback/AnonymousFeedback.jsx:14-22 | once an id is stored every later call returns it and stores nothing |
| `AnonymousFeedback.FeedbackPage.constructor` | src/pages/feedback/AnonymousFeedback.jsx:73-79 | the page starts with no answers and no error, and shows the form as submitted exactly when storage holds this session's marker |
| `AnonymousFeedback.FeedbackPage.HandleSubmit` | src/pages/feedback/AnonymousFeedback.jsx:115-161 | nothing is sent exactly when a required question is unanswered, with an error shown; otherwise the answers go with the device id; when addResponse succeeds the store is exactly the old one with the device id stored and the session's marker holding the submission time and the sent device id, and the page shows it as submitted; when it throws the page shows 'Failed to submit feedback. Please try again.', stays unsubmitted as before and storage gains only the device id |
| `AnonymousFeedback.MarkSubmittedFrames` | src/pages/feedback/AnonymousFeedback.jsx:147-151 | a successful submit marks its own session and adds at most the device key and that marker; every other key keeps its value and no other session's marker appears or goes |
| `AnonymousFeedback.DeviceIdKeepsMarker` | src/pages/feedback/AnonymousFeedback.jsx:14-22 | storing the device id neither creates nor removes a session's submitted marker |
| `SessionWizard.Or` | src/components/shared/SessionWizard.jsx:45-63 | a non-empty first value wins, else the second |
| `SessionWizard.Open` | src/components/shared/SessionWizard.jsx:36-63 | the wizard opens on step 1 with the session's own project code selected; an edited session keeps every field, except that an empty college id, academic year, domain, time, duration or ttl falls back to the default college, "2025-26", the default domain, "Morning", 60 or "24"; a new session gets exactly those defaults and empty other fields; without a stored trainer the first trainer is assigned when a default trainer is asked for |
| `SessionWizard.ReopenKeepsSession` | src/components/shared/SessionWizard.jsx:36-63 | reopening a complete session shows exactly that session, on step 1, with its project code selected |
| `SessionWizard.FindCollege` | src/components/shared/SessionWizard.jsx:110 | the college entry found has that id and comes from the list; none is found only when no entry has it |
| `SessionWizard.Sync` | src/components/shared/SessionWizard.jsx:100-115 | after the effects run, a set default college id replaces the form's, and the college name is the listed college's name when the list has that id, else unchanged; nothing else changes |
| `SessionWizard.SyncSettles` | src/components/shared/SessionWizard.jsx:100-115 | the effects reach a fixed point: running them again changes nothing |
| `SessionWizard.DefaultCollegeWins` | src/components/shared/SessionWizard.jsx:100-145 | in trainer mode a college picked by hand is replaced by the default college once the effects run, with the academic slot left cleared |
| `SessionWizard.IsStepValid` | src/components/shared/SessionWizard.jsx:170-176 | step 1 is valid exactly when college, academic year, course, branch, year and batch are set, step 2 exactly when topic, trainer, date and time are, and no other step is |
| `SessionWizard.Press` | src/components/shared/SessionWizard.jsx:512-521 | Next advances below step 2 only when the step is valid, Back goes back above step 1, and the form is untouched |
| `SessionWizard.StepStaysInRange` | src/components/shared/SessionWizard.jsx:170-521 | from step 1 any presses stay on steps 1 and 2, and step 2 is reached only with a valid step 1 |
| `SessionWizard.SelectCollege` | src/components/shared/SessionWizard.jsx:133-145 | a college change sets it, clears course, branch, year and batch, and drops a selected project code when the college differs |
| `SessionWizard.FindCode` | src/components/shared/SessionWizard.jsx:148 | the first project code with that string, or none exactly when no code has it |
| `SessionWizard.SelectProjectCode` | src/components/shared/SessionWizard.jsx:147-168 | an unknown code changes nothing; a known one is selected, fills college, course, year and academic year where it has them, and clears branch and batch |
| `SessionWizard.SelectCourse` | src/components/shared/SessionWizard.jsx:302-309 | the course select sets it and clears year, branch and batch |
| `SessionWizard.SelectYear` | src/components/shared/SessionWizard.jsx:322-328 | the year select sets it and clears branch and batch |
| `SessionWizard.SelectBranch` | src/components/shared/SessionWizard.jsx:343-347 | the branch select sets it and clears the batch |
| `SessionWizard.UpperChangesNeedBatch` | src/components/shared/SessionWizard.jsx:133-361 | changing anything above the batch makes step 1 invalid again, since each change clears the required batch |
| `SessionWizard.FilteredTrainers` | src/components/shared/SessionWizard.jsx:118-129 | without a domain every trainer is offered, else exactly those whose domain or specialisation contains it ignoring case |
| `SessionWizard.SameDomainOffered` | src/components/shared/SessionWizard.jsx:118-129 | a trainer whose domain is exactly the chosen one is offered |
| `SessionWizard.FindTemplate` | src/components/shared/SessionWizard.jsx:185 | a found template has the id asked for; none is found only when no template has it |
| `SessionWizard.TemplateQuestions` | src/components/shared/SessionWizard.jsx:186-193 | a template without sections adds no questions; otherwise one question per section question |
| `SessionWizard.SessionQuestionsShape` | src/components/shared/SessionWizard.jsx:181-195 | the form's questions come first unchanged, then the chosen template's in section order with only their ids replaced; nothing is added without such a template |
| `SessionWizard.Save` | src/components/shared/SessionWizard.jsx:178-210 | an edited session is updated under its id and a new one created, with the form and its full question list as payload |
| `TemplatesTab.NewQuestion` | src/pages/superadmin/components/TemplatesTab.jsx:121-135 | a new question is a required star rating in the default category, with empty text and no options |
| `TemplatesTab.Merge` | src/pages/superadmin/components/TemplatesTab.jsx:138-142 | a patched question takes each field the patch names and keeps the others and its id |
| `TemplatesTab.AddSimpleQuestion` | src/pages/superadmin/components/TemplatesTab.jsx:121-136 | adding a question appends a new question and keeps the others |
| `TemplatesTab.UpdateSimpleQuestion` | src/pages/superadmin/components/TemplatesTab.jsx:138-142 | updating patches the question at that index and keeps the others |
| `TemplatesTab.EmptyPatchKeeps` | src/pages/superadmin/components/TemplatesTab.jsx:138-142 | a patch naming no field leaves the list as it was |
| `TemplatesTab.RemoveSimpleQuestion` | src/pages/superadmin/components/TemplatesTab.jsx:144-148 | removing drops the question at that index and shifts the rest; past the end nothing changes |
| `TemplatesTab.AddThenRemove` | src/pages/superadmin/components/TemplatesTab.jsx:121-148 | adding a question and removing it again gives the list back |
| `TemplatesTab.TypePatch` | src/pages/superadmin/components/TemplatesTab.jsx:325-330 | the type select's patch sets the type, gives an mcq two options and a rating the default category |
| `TemplatesTab.TypeSwitchKeeps` | src/pages/superadmin/components/TemplatesTab.jsx:325-330 | switching type keeps the text, whether the question is required and its id |
| `TemplatesTab.SectionTitle` | src/pages/superadmin/components/TemplatesTab.jsx:159 | a section title is "Section " followed by digits without leading zeros that read back as the section's number |
| `TemplatesTab.SectionTitlesDistinct` | src/pages/superadmin/components/TemplatesTab.jsx:159 | different section numbers never give the same title |
| `TemplatesTab.AddAdvancedQuestion` | src/pages/superadmin/components/TemplatesTab.jsx:166-178 | a new question is pushed onto the section's own array, which every holder of that section sees |
| `TemplatesTab.QuestionCount` | src/pages/superadmin/components/TemplatesTab.jsx:280 | a card counts its questions when it has some, else the sum of its sections' question counts, else shows nothing |
| `TemplatesTab.Sizes` | src/pages/superadmin/components/TemplatesTab.jsx:280 | the section sizes are the lengths of the sections' question arrays |
| `TemplatesTab.AddedQuestionCounts` | src/pages/superadmin/components/TemplatesTab.jsx:166-280 | a question added to a section counts once more on the card |
| `TemplatesTab.CheckTemplate` | src/pages/superadmin/components/TemplatesTab.jsx:181-205 | a blank title or an empty simple template is refused with its message; otherwise the payload carries the title, description and questions or sections |
| `TemplatesTab.Editor.constructor` | src/pages/superadmin/components/TemplatesTab.jsx:83-110 | the editor starts closed, simple, not editing and empty |
| `TemplatesTab.Editor.OpenCreate` | src/pages/superadmin/components/TemplatesTab.jsx:83-109 | creating opens an empty template, an advanced one with one empty section titled Section 1 |
| `TemplatesTab.Editor.Edit` | src/pages/superadmin/components/TemplatesTab.jsx:111-117 | editing opens the listed template itself, advanced exactly when it has sections |
| `TemplatesTab.Editor.AddSimple` | src/pages/superadmin/components/TemplatesTab.jsx:121-136 | the editor's questions become the list with one new question, the rest of the editor unchanged |
| `TemplatesTab.Editor.UpdateSimple` | src/pages/superadmin/components/TemplatesTab.jsx:138-142 | the editor's questions become the patched list, the rest unchanged |
| `TemplatesTab.Editor.RemoveSimple` | src/pages/superadmin/components/TemplatesTab.jsx:144-148 | the editor's questions lose the question at that index, the rest unchanged |
| `TemplatesTab.Editor.AddSection` | src/pages/superadmin/components/TemplatesTab.jsx:152-164 | a fresh empty section titled after its position is appended, the rest unchanged |
| `TemplatesTab.Editor.Save` | src/pages/superadmin/components/TemplatesTab.jsx:181-224 | nothing is sent when a check fails; otherwise the template is updated when editing and created otherwise; the dialog closes only when the request is accepted, else an error shows and it stays open |

## Left out

- TicketsTab.FilteredMembers: the search lower-cases ASCII letters only (`Common.Lower`), while `toLowerCase` folds all of Unicode, so a search for "É" does not find "é" here as it does in the source.
- TicketsTab.Keep: the same ASCII-only lower-casing applies to the search over the subject and the raiser's name and email.
- DataService.EmailTest: the case-insensitive email comparison of `usersApi.getByEmail` and `usersApi.create` folds ASCII letters only.
- DataService.CodeTest: the case-insensitive code comparison of `collegesApi` upper-cases ASCII letters only.
- ProjectCodes.MatchCollege: the code and name comparisons fold ASCII letters only.
- TrainersTab.ParseTopics: `trim` removes ASCII white space only, not the other Unicode space characters JavaScript trims.
- SessionWizard.FilteredTrainers: the domain comparison folds ASCII letters only.
- TrainerFeedbackTab.FilteredTrainers: the name search folds ASCII letters only.
- Dashboard.TabAndSearch: the search is stated for verbatim containment only, because case folding is ASCII-only.
- TrainerSessions.FilteredSessions: the search is stated for verbatim containment only, for the same reason.
- Dashboard.AverageOf: JavaScript doubles are modelled as exact reals and integers. `toFixed` strings become `Round2` or an `Option<real>`, and the rounding of the display string is not modelled.
- CollegeAnalytics.AggregatedStats: the shown stats leave out `categoryAverages` and the qualitative comment lists (CollegeAnalytics.jsx lines 358-395 and 436-447), which are floating-point sums and display text.
- CollegeOverview.AggregatedStats: the category averages and the qualitative lists are not part of the shown stats either.
- TrainerOverview.AggregatedStats: the category averages and the qualitative lists are not part of the shown stats either.
- CacheService.CollegeCategoryIncs: only the category counts are incremented. The floating-point category sums, the hour totals and `updatedAt` are not modelled.
- Dates: a session date is an integer day number and a month is a `YYYY-MM` string. `new Date` parsing, time zones, the NaN dates that the date comparisons keep, and the `getDateRange` windows are not modelled; a window is passed in as a pair of day numbers. FacultyReport's `submittedAt` is a day number as well, so comments submitted on the same day keep their reading order instead of being ordered by time of day.
- TrainersTab.FieldStr: a field of an uploaded record that is a number, a boolean or null reads as absent, where the source keeps the value itself and sends it on.
- TrainersTab.InputOf: non-string entries of an uploaded `topics` array are dropped, where the source keeps them; and a null array element gives an incomplete trainer that is skipped, where reading a property of null throws in the source and aborts the whole upload.
- OrderedMap: objects used as dictionaries keep insertion order here, while JavaScript lists integer-like keys ("0", "1", "42") first in ascending order and then the other keys in insertion order. The members below follow insertion order where the source follows that key order.
- ResponseService.TopicsLearned: topics with equal counts keep the order in which they were first named, where the source's stable sort keeps the object's key order (integer-like topic names first).
- Dashboard.BucketsStayFirst: holds here, but not in the source when a session's distribution adds an integer-like key such as "0", which JavaScript lists before "1".
- AcademicLibJs.GetDepartmentsForCourse: `Object.values(yearDepartments)` is walked in insertion order.
- SeedSessions.Combinations: the year keys of a configuration are walked in insertion order.
- FacultyReport.Report: questionAverages lists the questions in insertion order.
- Common.ToLower: lower-cases ASCII letters only, while `toLowerCase` folds all of Unicode; `Common.ToUpper` likewise upper-cases ASCII letters only.
- Common.Trim: removes ASCII white space only (`Common.IsSpace`), while `trim` removes every Unicode space character and line terminator.
- ProjectCodesTab.FilteredCodes: the search folds ASCII letters only; so do ProjectCodesTab.CodeMatches and ProjectCodesTab.NameMatches.
- ProjectCodes.Segments: pieces are trimmed of ASCII white space only; ProjectCodes.ParseProjectCode inherits this.
- ProjectCodes.OldWordYear: the year words are compared after ASCII-only lower-casing.
- ResponseTallies.CountLowered: option values are counted after ASCII-only lower-casing.
- ResponseService.TopicsIn: topics are trimmed of ASCII white space only; ResponseService.Capitalise and ResponseService.TopicsCounted upper-case and lower-case ASCII letters only.
- CacheService.SanitizeFieldName: trims ASCII white space only, where the source uses the Unicode `trim`.
- Dashboard.MatchesSearch: the college sessions tab and college overview search fold ASCII letters only.
- MockAuth.AuthSession.Login: the email is matched after ASCII-only lower-casing.
- TrainersTab.Save: the form fields are trimmed of ASCII white space only.
- Common.IsBlank: the academic config tab's blank checks treat only ASCII white space as blank.
- TemplatesTab.CheckTemplate: the blank-text checks treat only ASCII white space as blank.
- ResponseTallies.NumberOrZero: a string with a sign, a decimal point or an exponent ("-2", "4.5", "1e3") reads as 0, where `Number` gives its value.
- Dashboard.KeyNumber: a rating key that is not a plain run of digits reads as 0, where `Number` reads decimals and signs.
- Dashboard.DurationMinutes: a duration string with a decimal point or a sign reads as 60, where `Number` reads its value.
- ResponseTallies.KeyOf: an array value is keyed as "[array]", where `String` joins its elements with commas.
- AcademicConfigTab.YearNumber: a year key that parseInt cannot read sorts as year 0. In the source the comparator returns NaN for it, which `sort` treats as equal to every key, so its place depends on the engine's sort.
- DataService.OrderKey: a fractional `order` is floored before questions are compared, where the source subtracts the fractions.
- DataService.OverallRating: ratings are taken to be numbers; a truthy rating that is a string reads as 0 here, where `sum + r.rating` in the source concatenates it into a string.
- DataService.RatedResponses: a null entry of `responses` is skipped, where reading `rating` of null throws in the source.
- TrainerOverview.AggregatedStats: the shown-stats record it shares with the other dashboards has a totalHours field that the trainer overview does not compute; nothing is stated about that field.
- ProjectCodes.WriteDocs: a document whose code is undefined is written with no code; how the database client treats an undefined field value is not modelled.
- SessionWizard.Open: the form holds strings, so the default sessionDuration is "60" where the source stores the number 60.
- SessionWizard.SelectCollege: the effects that follow a change (SessionWizard.Sync) are a separate step; SelectCollege, SelectProjectCode and Save take the form as it is before those effects run, and when React runs them relative to the next handler is not modelled.
- Firestore: documents, queries, `writeBatch`, transactions, `increment`, `serverTimestamp` and the asynchronous calls are in-memory maps, explicit results and parameters. Only the read and write failures that the source handles are modelled.
- localStorage: the stored JSON text is a map field of the store class, and `JSON.stringify`/`JSON.parse` are not modelled.
- Randomness and ids: `Math.random`, `Date.now` and generated ids are parameters.
- Logging: `console.log` and `console.error` calls, such as those of the seed driver, are left out.
- convertTrainer.py: reading the CSV file, writing the JSON file and pandas type inference are left out; the model is the per-row rename and derivation.
- UI: React rendering, charts, dialogs, toasts, debounced timers and the loading flags are left out; the model covers the state the handlers compute.
- Spreadsheet export: the ExcelJS/file-saver export and the file-system scripts are left out.

## Findings

| source | as written | input that shows it | evidently intended | confidence | as-written member | corrected member |
|---|---|---|---|---|---|---|
| src/services/superadmin/cacheService.js:180-216 | the college update emits the increment of every topic path twice | a session with one topic | each topic path once; both end in the same counters, because the later write of a path replaces the earlier one | not executed | `CacheService.TopicEmittedTwice` | `CacheService.CollegeAddThenDelete` |
| src/services/superadmin/projectCodeService.js:157-169 | the word table is scanned by substring in insertion order, so "third" matches the roman numeral "i" first | B.Tech year "Third" where years 1 to 4 exist | "3" | not executed | `ProjectCodes.ThirdReadsAsFirst` | `VerifyResolveYear.TestThird` |
| src/services/superadmin/projectCodeService.js:136-140 | resolveYear looks for `departments` under a course, which the saved course-to-years shape does not have, and returns the digits of the raw year | B.Tech "Final Year" on the saved configuration | "4" | not executed | `ProjectCodes.FinalYearLost` | `VerifyResolveYear.TestFinalYear` |
| src/pages/superadmin/components/ProjectCodesTab.jsx:70 | the duplicate test compares `pc.code` with `parsed.code`, which the parser never sets | re-importing the stored code "ICCS/MSC/1st/TP/25-27" | the code is flagged as a duplicate and not counted as new | not executed | `ProjectCodesTab.ReimportNotFlagged` | `ProjectCodesTab.SentCodesAreNew` |
| src/services/superadmin/seedSessions.js:156-160 | the walk looks for `departments` directly under a course, which a saved configuration does not have | any saved configuration with at least one batch | every batch of the saved tree yields a combination | not executed | `SeedSessions.AsWrittenMissesSaved` | `SeedSessions.CorrectedFindsSavedBatches` |
| src/lib/academicConfig.js:235 | the IGSB branch names the undeclared `igsbDefaultSubjectsData`, which throws, and the caller falls back to the ICEM tables | an IGSB college with no stored configuration | the IGSB course table | not executed | `AcademicLibJs.IgsbGetsIcemAsWritten` | `AcademicLibJs.IgsbGetsIgsb` |
| src/services/superadmin/responseService.js:291-296 | a category is restarted whenever its running total is 0, so an earlier zero rating is dropped | the values 0 and then 4 in one category | the average 2 | not executed | `ResponseTallies.ZeroRatingDropped` | `ResponseTallies.CategoryAverageIsMean` |
| src/pages/admin/components/CollegeOverviewTab.jsx:263-267 | filteredSessions is the constant empty list, so the topTrainers memo built from it (which the tab never renders) is always empty | one session with a trainer | the memo lists that trainer | not executed | `CollegeOverview.OverviewMemoAlwaysEmpty` | `Dashboard.TopTrainersShape` |
| src/pages/admin/components/TrainerFeedbackTab.jsx:121-124 | the card average divides the sum over all rating buckets by the number of responses, not by the number of ratings | one response with two five-star ratings | 5 | not executed | `TrainerFeedbackTab.CardAverageExceedsFive` | `TrainerFeedbackTab.CardAverageIsStar` |
