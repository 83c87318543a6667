# Assessments, proved

A Dafny model of an assessment platform: how tests are written, imported,
copied, sent, taken and scored, and how long a sign-in lasts. It follows the
branches, constants and error cases of the code it cites.

- **CSV** (`Csv`, `CsvFiles`, `CsvLaws`): a character-level parser and printer for
  RFC 4180 (section 2) with separator guessing. Every text is a file of bare and
  quoted fields, and what is read is just what that file says.
- **Question files** (`QuestionCsv`, `CellLaws`): the question format with its header
  mapping, type words and scale rebuilding. What each cell of a hand-written row
  says is told apart from how it is parsed, and a row is a question exactly when its
  cells say so. Printing and reading undo each other, with the exact condition.
- **Questions** (`Questions`, `QuestionLaws`): normalizing, and the rules.
- **Layout** (`Shuffle`, `Layout`, `TakeView`): the in-place Fisher-Yates
  shuffle over any source of numbers, section blocks, pinned last options, and
  what a candidate is shown.
- **Scoring** (`Scoring`, `ScoringLaws`, `ScoreMeaning`, `Bands`, `Twins`):
  right-answer and alignment scores over `real`, section by section.
- **Attempts** (`Attempts` to `AttemptService`): start, answer, submit and the
  overdue sweep as a step relation in which each database call and each reading
  of the clock is one step and any number of requests interleave; and the same
  services as a class that runs one request at a time.
- **Authoring** (`OrderColumn`, `SectionList`, `CsvImport`, `Authoring`,
  `AuthoringLaws`): the questions table with its `order` column, which stands for a
  plain list, the sections and the score bands.
- **Export and import again** (`ExportImport`, `Reimport`, `ReimportScores`): what a
  test's own CSV export gives when it is imported, and whether it scores the same.
- **Transfer** (`SectionKeys`, `SlugLaws`, `Content`, `Documents`, `Imports`, `Transfer`,
  `DocumentLaws`, `CopyLaws`): export, the import gate, import, duplicate and snapshot.
- **Editor** (`Editor`, `DraftEditor`, `EditLaws`): the draft behind the question form.
- **Sessions** (`Sessions`): an idle expiry under an absolute limit.

Check everything with `dafny verify dfyconfig.toml`.

Where the code does not do what one might expect, the model keeps the code and
a lemma says so:

- A finished attempt's result need not be the score of its stored answers: an
  answer checked before a submit may be stored after it. In any interleaving an
  attempt, with whatever is about to be recorded for it, stays settled exactly
  when no answer of its own that changes its score is stored while it is finished
  or being closed (`AttemptOrders.SettledExactly`; for one late answer:
  `StoreAfterFinish` and `StoreBeforeWrite`). It can happen
  to a test exactly when one more answer can change the test's score
  (`AttemptRace.UnsettledExactly`), so to every test that can be sent
  (`AttemptRace.AnySentTestMayDiffer`).
- A section key made for export can be another section's name, and the test
  can then not be duplicated (`CopyLaws.AccentedNameRefused`).
- A CSV row can land in another section than the one it names. A later section's
  key replaces an earlier section's name in the lookup
  (`CsvImport.ForeignNameTakesOver`; exactly when, for a name some section has:
  `CsvImport.LandsInItsSection`), and a new name whose key some section answers to
  is filed there, its own section never made (`CsvImport.ForeignNameMisfiled`;
  exactly when, for a name no section has: `CsvImport.LandsInNewSection`).
- A test's own CSV export, imported again, need not bring every question back in
  its section: wording between the ends of a rating scale is lost
  (`ExportImport.MiddleWordingLost`), and the questions of a section called Item
  can move to another (`ExportImport.ItemQuestionMoves`; exactly when it does:
  `ExportImport.RestoresExactly`). Nor does a clean report mean that nothing
  changed: a scale comes back with the values 1 to n, so the role's value can come
  to mean another point (`ReimportScores.RoleMoves`). Results stay the same exactly
  when every scale had those values (`ReimportScores.ReimportKeepsResults`).
- The guard's test for a running attempt and the overdue test leave one
  millisecond where an attempt is neither (`AttemptOrders.RunningIsNotOverdue`).
- The once-an-hour renewal shortens the idle time that is safe to rely on by an
  hour, and by no less (`Sessions.KeptExactly`).
- The import gate compares section names as sent, while the import trims them
  first. The two agree on trimmed names, which is how requests arrive; the
  lemmas about imported sections ask for that.

## Model

| member | source | states |
|---|---|---|
| Csv.DetectSeparator | backend/src/common/csv.ts:91-110 | The counting loop picks the separator the first line uses most outside quotes, the comma winning ties |
| Csv.ParseCsv | backend/src/common/csv.ts:25-77 | The character loop computes the reading that the laws below are about |
| CsvFiles.ReadsEveryText | backend/src/common/csv.ts:25-77 | Any text at all is records of bare and quoted fields, each ended by CRLF, LF or CR, and at its end perhaps one that is not ended or a quote that is never closed; with the separator guessed just those records are read, or the row of that quote is reported |
| CsvFiles.ReadsAsWritten | backend/src/common/csv.ts:25-77 | And whatever such records a text is written as, they are what is read |
| CsvLaws.CountsPlaces | backend/src/common/csv.ts:91-110 | What the guess counts of a separator are its places on the first line with an even number of quotes before them |
| CsvLaws.ReadsRows | backend/src/common/csv.ts:25-77 | Rows written with a comma, semicolon or tab, with any of the three line endings and the last line ended or not, are read as they are when that separator is guessed; a byte order mark in front changes nothing |
| CsvLaws.GuessesRows | backend/src/common/csv.ts:91-110 | And it is guessed exactly when the first row holds no more of another one outside quotes, ties going to the comma and then the semicolon |
| CsvLaws.GuessesComma | backend/src/common/csv.ts:91-110 | On printed text the guess is the comma exactly when the first row's unquoted cells hold no more semicolons, and no more tabs, than the row has commas |
| CsvLaws.ReadsShown | backend/src/common/csv.ts:25-88 | Printed rows are read back cell for cell whatever quotes, separators, line breaks or edge spaces they hold; only an empty row comes back as one empty cell |
| CsvLaws.OtherSeparator | backend/src/common/csv.ts:25-77 | When another separator is guessed, what is read is never what was printed |
| CsvLaws.RoundTrip | backend/src/common/csv.ts:25-88 | Parsing printed rows gives the rows back if and only if there are rows, none is empty, and the first one has a comma header |
| CsvLaws.BomIgnored | backend/src/common/csv.ts:25-27 | A leading byte order mark changes nothing about what is read from printed text |
| Questions.NormalizeIdempotent | backend/src/assessments/canonical/question-rules.ts:64-106 | Normalizing a normalized question changes nothing, so a stored question survives every later save |
| QuestionLaws.NormalizeMeans | backend/src/assessments/canonical/question-rules.ts:50-106 | Normalizing trims every text with blank ones as none, letters the options or numbers them by their values, gives True and False to a question without them, and drops just what the type has no use for |
| Questions.CheckQuestion | backend/src/assessments/canonical/question-rules.ts:112-185 | The pushing loop reports the problems of a question for a scoring method, in order |
| Questions.ProblemFree | backend/src/assessments/canonical/question-rules.ts:112-185 | No problem is reported exactly for the questions a test can hold: sizes, texts, one right answer, climbing values and a role answer among them |
| QuestionLaws.ProblemsMean | backend/src/assessments/canonical/question-rules.ts:112-185 | Each problem is reported exactly when the question has it |
| Questions.KindFits | backend/src/assessments/canonical/question-rules.ts:24-28 | A problem-free question is of a type its scoring method allows and the other one does not |
| Questions.MethodsExclude | backend/src/assessments/canonical/question-rules.ts:112-185 | No question is free of problems under both scoring methods |
| QuestionCsv.MapColumns | backend/src/assessments/canonical/csv-questions.ts:119-141 | The header loop computes the columns and reports that the law of headers is about |
| QuestionCsv.HeaderMaps | backend/src/assessments/canonical/csv-questions.ts:119-141 | In any header each column maps to the first cell that names it; the errors are exactly the repeats, the warnings exactly the unknown names, and there is no error if and only if no column is named twice |
| QuestionCsv.ReadRows | backend/src/assessments/canonical/csv-questions.ts:150-299 | The row loop skips blank rows and collects each other row's question, errors and warnings under its row number |
| QuestionCsv.ParseQuestionCsv | backend/src/assessments/canonical/csv-questions.ts:89-299 | The loops over header and rows compute the reading that the laws of rows and files are about |
| CellLaws.TypeRead | backend/src/assessments/canonical/csv-questions.ts:389-411 | A type cell is read by its words alone, in any case and whatever stands between them; a blank one means the method's usual type, and other words mean none |
| CellLaws.DifficultyRead | backend/src/assessments/canonical/csv-questions.ts:413-419 | Easy, medium or hard in any case, blank for none, and nothing else |
| CellLaws.FlagRead | backend/src/assessments/canonical/csv-questions.ts:421-426 | Yes, y, true or 1, and no, n, false or 0, in any case, blank for none, and nothing else |
| CellLaws.IntegerRead | backend/src/assessments/canonical/csv-questions.ts:428-431 | A whole number in digits, after a minus sign or leading zeros or neither; blank for none, and nothing else |
| CellLaws.CorrectRead | backend/src/assessments/canonical/csv-questions.ts:434-450 | On a True/False row t or true in any case is the first option and f or false the second; a letter from A to F is the option at its place; any other text is the first option that reads the same ignoring case, and otherwise none is |
| CellLaws.RowReads | backend/src/assessments/canonical/csv-questions.ts:157-289 | A trimmed row is read as a question if and only if its cells say that question, each in its own way, a blank scale size meaning five points, and it is ready to send; so a row that says none is refused |
| CellLaws.CellComplaints | backend/src/assessments/canonical/csv-questions.ts:162-191 | Type, difficulty, the two flags, the role's value and the question text are each complained of exactly when the cell says nothing that can be read |
| CellLaws.ScaleComplaints | backend/src/assessments/canonical/csv-questions.ts:193-221 | A scale size is complained of exactly when it says no number from 2 to 7, and option columns a scale does not use are noted |
| CellLaws.ChoiceComplaints | backend/src/assessments/canonical/csv-questions.ts:222-269 | A gap is complained of at the first blank option before one with a text, and the right answer exactly when it is missing or names no option; on a choice scale it is only noted |
| CellLaws.CellsTaken | backend/src/assessments/canonical/csv-questions.ts:150-156 | The cells of a row are those under the header's columns, trimmed, and blank where there is none |
| CellLaws.FileReads | backend/src/assessments/canonical/csv-questions.ts:89-299 | With a header that names the text column and no column twice, the questions are just those the rows say, each under its number in the file and in order; with any other header there are none |
| CellLaws.FileComplains | backend/src/assessments/canonical/csv-questions.ts:150-290 | And the complaints are just those about its rows, under their numbers |
| QuestionCsv.RowReadsBack | backend/src/assessments/canonical/csv-questions.ts:302-387 | The cells an importable question is printed to parse back to exactly that question, with no error and no warning |
| QuestionCsv.ReadIsImportable | backend/src/assessments/canonical/csv-questions.ts:150-299 | Any question a row yields is normalized, problem-free and one the format can hold |
| QuestionCsv.ImportsAreReady | backend/src/assessments/canonical/csv-questions.ts:89-299 | Every question read from any text is normalized and problem-free for the test's scoring method |
| QuestionCsv.EveryRowAccounted | backend/src/assessments/canonical/csv-questions.ts:89-299 | A file read without errors gives one question for every row that is not blank, and at least one |
| QuestionCsv.PrintedRecords | backend/src/assessments/canonical/csv-questions.ts:302-306 | Printed questions parse at the character level to the header row and one record per question |
| QuestionCsv.ImportableReadsBack | backend/src/assessments/canonical/csv-questions.ts:89-387 | A non-empty list of importable questions reads back at rows 2 to n + 1 with no errors and no warnings |
| QuestionCsv.RoundTrip | backend/src/assessments/canonical/csv-questions.ts:89-387 | Printing and reading gives the questions back, clean, if and only if there is one and each is importable |
| Snapshots.GroupQuestions | backend/src/assessments/canonical/scoring.ts:209-235 | The loop that pushes each question onto its section's list builds exactly the section blocks, and the rest |
| Snapshots.BlocksPartition | backend/src/assessments/canonical/scoring.ts:209-235 | The section blocks and the unsectioned one hold every question once, dangling section ids included |
| Snapshots.BlocksAre | backend/src/assessments/canonical/scoring.ts:209-235 | Block k holds the questions of section k as they stand, and the last one those of no section listed |
| Shuffle.ShuffleInPlace | backend/src/assessments/canonical/layout.ts:31-38 | The swapping loop leaves the array as its whole sequence of draws rearranges it, taking one number per step |
| Shuffle.ShuffledItems | backend/src/assessments/canonical/layout.ts:31-38 | A shuffle keeps every item, whatever is drawn |
| Shuffle.DrawsAreDetermined | backend/src/assessments/canonical/layout.ts:31-38 | Two draw sequences that give the same order of distinct items are the same sequence |
| Shuffle.OneDrawSequencePerOrder | backend/src/assessments/canonical/layout.ts:31-38 | Every order of distinct items is reached by exactly one sequence of draws |
| Shuffle.EveryDrawPossible | backend/src/assessments/canonical/layout.ts:31-38 | Every sequence of draws comes from some source of numbers in [0, 1) |
| Layout.ShuffledCopy | backend/src/assessments/canonical/layout.ts:31-38 | The copy is shuffled and the next position in the source is returned |
| Layout.QuestionsKept | backend/src/assessments/canonical/layout.ts:61-90 | Whatever is drawn, the order has each question once: the order it had if the setting is fixed, each section mixed within itself if it is by section or the test is scored by alignment, and otherwise any |
| Layout.OptionsKept | backend/src/assessments/canonical/layout.ts:92-102 | Each option appears once, unshuffled options stay in place, and a pinned last option stays last |
| Layout.LayoutIsForTest | backend/src/assessments/canonical/layout.ts:40-102 | For every random source the layout has the questions in an order the setting and the scoring method allow, and the options of each as its flags allow |
| Layout.DrawnExactly | backend/src/assessments/canonical/layout.ts:40-102 | And every layout the settings allow is drawn by some source: none is out of reach |
| TakeView.EverythingShown | backend/src/assessments/take-view.ts:17-51 | On such a layout the candidate sees every question once, numbered 1 to n in the layout's order, with all of its options, in the layout's order too |
| Bands.BandIsHighest | backend/src/assessments/canonical/scoring.ts:63-73 | The band has the largest minimum the score reaches within the tolerance, and there is none when none is reached |
| Bands.BandOrderIrrelevant | backend/src/assessments/canonical/scoring.ts:63-73 | With distinct minimums the order the bands are listed in changes nothing |
| Bands.BandMonotone | backend/src/assessments/canonical/scoring.ts:63-73 | A higher score never falls into a lower band |
| Scoring.MakeGroups | backend/src/assessments/canonical/scoring.ts:209-235 | The groups are the non-empty section blocks in order, then the unsectioned questions |
| Scoring.RunCorrectAnswers | backend/src/assessments/canonical/scoring.ts:75-112 | The counting loops compute the right-answer result that the laws below are about |
| Scoring.RunAlignmentGroup | backend/src/assessments/canonical/scoring.ts:149-188 | The inner loop adds up one section's alignment, counts its compared items and raises its flags in order |
| Scoring.RunAlignment | backend/src/assessments/canonical/scoring.ts:142-201 | The outer loop computes the alignment result that the laws below are about |
| ScoringLaws.CountsAddUp | backend/src/assessments/canonical/scoring.ts:75-235 | Section totals, answered and correct counts sum to the overall counts, which count every question once |
| ScoringLaws.ScoresAreFractions | backend/src/assessments/canonical/scoring.ts:53-249 | Every score lies between 0 and 1 |
| ScoringLaws.CorrectScoreIsWeightedMean | backend/src/assessments/canonical/scoring.ts:75-112 | A right-answer score is the mean of its section scores weighted by section size |
| ScoringLaws.KeyScoresCorrect | backend/src/assessments/canonical/scoring.ts:75-112 | For problem-free right-answer tests the score is 1 if and only if every question has its key answer |
| ScoringLaws.AnswerKeyScoresOne | backend/src/assessments/take-view.ts:62-77 | Scoring the answer key of a problem-free test gives 1, every question answered and no flags, under both methods |
| ScoringLaws.OneMoreRight | backend/src/assessments/canonical/scoring.ts:75-112 | Turning one wrong or blank answer right raises the correct count by exactly one, and the score with it |
| ScoringLaws.NearerNeverLowers | backend/src/assessments/canonical/scoring.ts:142-201 | Answers at least as near the role's values never score less |
| ScoringLaws.OneNearer | backend/src/assessments/canonical/scoring.ts:119-201 | Moving one answered item nearer the role's value lowers neither the score nor the band |
| ScoreMeaning.BandMatchesScore | backend/src/assessments/canonical/scoring.ts:53-73 | The result names the band of its own score |
| ScoreMeaning.FlagsAreWideGaps | backend/src/assessments/canonical/scoring.ts:149-180 | The flags are exactly the gaps of two points or more, one for each, with their direction |
| ScoreMeaning.ChoiceEarns | backend/src/assessments/canonical/scoring.ts:119-128 | A candidate who chooses an option of a choice scale earns 1 exactly for the role's value, one half exactly for the value next to it, and 0 exactly otherwise |
| ScoreMeaning.RatingEarns | backend/src/assessments/canonical/scoring.ts:129-134 | A candidate who chooses an option of a rating scale whose values go from f to l earns 1 less the distance between the chosen value and the role's as a part of l - f, and never less than 0; with one value only, 1 |
| ScoreMeaning.EndsApart | backend/src/assessments/canonical/scoring.ts:129-134 | So the two ends of a climbing scale are worth nothing to each other |
| ScoreMeaning.AnsweredWhen | backend/src/assessments/canonical/scoring.ts:237-244 | A question is answered when the answer is one of its options, right when that option is, and compared when that and the role have a value |
| ScoreMeaning.SectionsCount | backend/src/assessments/canonical/scoring.ts:75-188 | Every section's result goes by its name and weight and counts the questions filed under it: how many, how many answered, and the share that was right or the mean of what the compared ones earned |
| ScoreMeaning.SectionsInOrder | backend/src/assessments/canonical/scoring.ts:209-235 | The results come in section order, the rest last, and sections without questions are left out |
| ScoreMeaning.AlignmentScoreIsMean | backend/src/assessments/canonical/scoring.ts:183-190 | The alignment score is the weighted mean of weighted sections, or the plain mean without weights |
| ScoreMeaning.FullMarks | backend/src/assessments/canonical/scoring.ts:142-201 | An alignment score is 1 if and only if every section that counts has a compared item and all of its compared items are at the role's value; items left out cost nothing |
| AttemptLaws.TimeTakenInRange | backend/src/assessments/attempts.service.ts:58-78 | Time taken is the time to the finish or the deadline, to the nearest second, between 0 and the test's duration |
| AttemptLaws.SweepAgrees | backend/src/assessments/attempts.service.ts:17-38 | The overdue query and the overdue test agree on every attempt in progress |
| AttemptLaws.StepKeepsDb | backend/src/assessments/take.service.ts:84-199 | Any one database step moves attempts forward only and keeps every row and every stored answer in order |
| AttemptLaws.StepKeepsPc | backend/src/assessments/take.service.ts:84-199 | After its step a request knows what its next step relies on, such as that the attempt it will expire is overdue |
| AttemptLaws.NextKeepsInv | backend/src/assessments/take.service.ts:84-199 | Whichever request, tick or new attempt comes next, the invariant holds and no attempt moves back |
| AttemptLaws.RunKeepsInv | backend/src/assessments/attempts.service.ts:24-81 | Every state of every interleaving satisfies the invariant: deadlines are start plus duration, answers name options of their own question |
| AttemptLaws.AttemptsMoveForward | backend/src/assessments/take.service.ts:97-118 | Between any two states of a run, start, deadline and layout stay once set, and a finished attempt stays as it is |
| AttemptLaws.LeavesOnce | backend/src/assessments/attempts.service.ts:45-81 | An attempt leaves not-started at most once and in-progress at most once |
| AttemptHistory.ResultWasRead | backend/src/assessments/attempts.service.ts:45-81 | A finished attempt's result is the score of its frozen snapshot on the answers stored at one moment while it ran; its status was right for one moment of the run |
| AttemptHistory.ClosingTimes | backend/src/assessments/attempts.service.ts:58-78 | It finished after it started, its time taken is in range, and it expired only past deadline and grace |
| AttemptHistory.AnswersWereInTime | backend/src/assessments/take.service.ts:128-199 | However requests interleave, every stored answer comes from a request that found the attempt running and checked it at a moment not past deadline and grace |
| AttemptOrders.MoveSettles | backend/src/assessments/take.service.ts:128-150 | Whatever other requests are doing, a move keeps a settled attempt settled if and only if it does not store, late, an answer that changes its score |
| AttemptOrders.SettledExactly | backend/src/assessments/attempts.service.ts:45-81 | In any interleaving an attempt, with whatever is about to be recorded for it, stays settled throughout if and only if no answer that changes its score is stored once it is finished or being closed |
| AttemptOrders.StoreAfterFinish | backend/src/assessments/take.service.ts:145-149 | An answer stored after the finish leaves the result right if and only if it does not change the score |
| AttemptOrders.StoreBeforeWrite | backend/src/assessments/attempts.service.ts:45-81 | So does one stored between the reading and the writing of a closing request |
| AttemptOrders.SerialRunsSettle | backend/src/assessments/attempts.service.ts:45-81 | In particular, when requests run one at a time every finished attempt's result is the score of its stored answers for ever after |
| AttemptOrders.RunningIsNotOverdue | backend/src/assessments/guards/invitation-token.guard.ts:46-55 | An attempt the guard counts as running is never overdue; it is one or the other except at a single millisecond |
| AttemptOrders.StartedShowsEverything | backend/src/assessments/take.service.ts:105-118 | A started attempt's stored layout always shows every question and option of its test |
| AttemptOrders.StoredAnswersCount | backend/src/assessments/take.service.ts:128-150 | Every stored answer is one the scoring finds as chosen |
| AttemptOrders.OffersMeans | backend/src/assessments/take.service.ts:136-144 | The options that can be stored are exactly those the attempt's questions have |
| AttemptRace.LateAnswerUnsettles | backend/src/assessments/take.service.ts:128-174 | From any reachable state where an attempt can be answered, some run submits it and then stores an offered answer; the result is then right if and only if the answer does not change the score |
| AttemptRace.UnsettledExactly | backend/src/assessments/take.service.ts:128-174 | Some interleaving leaves an attempt at a test with a wrong result if and only if one more offered answer can change the test's score |
| AttemptRace.AnySentTestMayDiffer | backend/src/assessments/take.service.ts:134-149 | So it can happen to every test that can be sent, under both scoring methods |
| AttemptRace.StoredAnswersMayDiffer | backend/src/assessments/take.service.ts:134-149 | For any test with a right option, some interleaving ends with a submitted attempt whose result is not the score of its stored answers |
| AttemptService.Service.Finish | backend/src/assessments/attempts.service.ts:45-81 | Scores a running attempt on its stored answers and closes it, and changes nothing otherwise; the table stays in order unless an attempt that is not overdue is closed as expired |
| AttemptService.Service.FinalizeOverdue | backend/src/assessments/attempts.service.ts:28-38 | Closes exactly the running attempts overdue at the query, in any order, and touches no other row |
| AttemptService.Service.Start | backend/src/assessments/take.service.ts:84-125 | The link's attempts overdue when the sweep asks are closed and no other row is touched but the one started: an overdue one is then refused and any other running one resumed; one not started begins with its deadline and layout unless the link had expired when that was checked |
| AttemptService.Service.Answer | backend/src/assessments/take.service.ts:128-150 | What it answers and writes for every state of the attempt: an overdue one is closed and nothing stored, and only an option of the question is stored |
| AttemptService.Service.Submit | backend/src/assessments/take.service.ts:153-174 | What it answers and writes for every state of the attempt: a running one is closed, as expired exactly if it was overdue when the clock was checked |
| AttemptService.StepsFinish | backend/src/assessments/attempts.service.ts:45-81 | The three protocol steps of closing, uninterrupted, do what the method does |
| AttemptService.StepsOpen | backend/src/assessments/take.service.ts:88-118 | So do those of a start after its sweep |
| AttemptService.StepsAnswer | backend/src/assessments/take.service.ts:128-199 | And those of an answer |
| AttemptService.StepsSubmit | backend/src/assessments/take.service.ts:153-174 | And those of a submit |
| SectionKeys.Slugify | backend/src/assessments/canonical/canonical.mapper.ts:14-24 | A slug is non-empty, at most 80 letters, digits and single inner dashes, or the fallback |
| SlugLaws.SlugMeans | backend/src/assessments/canonical/canonical.mapper.ts:14-24 | It is the folded name's runs of letters and digits joined by dashes, cut at 80 and not after a dash; a name without any has the fallback |
| SectionKeys.NextKey | backend/src/assessments/canonical/canonical.mapper.ts:33-35 | The counting loop ends, at the first free numbered key |
| SectionKeys.MakeKeys | backend/src/assessments/canonical/canonical.mapper.ts:27-40 | The loop gives each section its slug, numbered past the keys already used |
| SectionKeys.KeysDistinct | backend/src/assessments/canonical/canonical.mapper.ts:27-40 | No two sections share a key |
| SlugLaws.KeysMean | backend/src/assessments/canonical/canonical.mapper.ts:27-40 | Each section's key is its slug, or the slug with the first number from 2 up that no section before it has taken |
| Content.CheckPublishable | backend/src/assessments/canonical/canonical.mapper.ts:122-143 | The loop lists what stops a test from being published |
| Documents.CheckSections | backend/src/assessments/canonical/document-rules.ts:16-24 | The loop reports every section name or key already taken, ignoring case |
| Documents.CheckDocument | backend/src/assessments/canonical/document-rules.ts:13-44 | Lists every problem of a document: sections, questions, bands |
| Documents.GateLetsCleanThrough | backend/src/assessments/canonical/document-rules.ts:13-44 | No problem is listed exactly when names and keys are apart, questions are ready in known sections, and band minimums differ |
| DocumentLaws.GateComplains | backend/src/assessments/canonical/document-rules.ts:13-44 | Each problem is listed exactly when the document has it: a name two sections go by, a section no one goes by, a problem of a normalized question, two bands at one score |
| Imports.NameAssets | backend/src/assessments/assessment-import.service.ts:127-134 | The loop maps each file name to the asset that best fits it |
| Imports.NamedIsBest | backend/src/assessments/assessment-import.service.ts:127-134 | That asset is the newest one the test already uses, or else the newest |
| Imports.WriteSections | backend/src/assessments/assessment-import.service.ts:156-169 | Writes the sections under fresh ids and fills the map their keys and names are looked up in |
| Imports.WriteQuestion | backend/src/assessments/canonical/question-data.ts:12-48 | A row holds the normalized question, its section and file, and its options in order under fresh ids |
| Imports.WriteContent | backend/src/assessments/assessment-import.service.ts:150-198 | Writes a whole document under ids no other row has |
| Imports.StoreKept | backend/src/assessments/canonical/question-data.ts:12-48 | A normalized problem-free question stays so through storing and loading |
| DocumentLaws.ImportHolds | backend/src/assessments/assessment-import.service.ts:150-198 | An imported test holds its document: settings, sections and bands with their texts trimmed, and each question's columns and options normalized |
| DocumentLaws.ImportLinks | backend/src/assessments/assessment-import.service.ts:105-147 | Each question is linked to the file of its id, or else to the best of its name, or else to a name to upload one under |
| Twins.TwinsScoreAlike | backend/src/assessments/canonical/scoring.ts:53-235 | Snapshots that agree on what the scoring reads, such as ones that differ only in their ids, give the same choices the same score, band, section scores and flags |
| Twins.TranslatedAlike | backend/src/assessments/canonical/scoring.ts:237-244 | Any answers to one have answers to the other that choose the same options |
| Transfer.Export | backend/src/assessments/canonical/canonical.mapper.ts:76-116 | Builds the document of a test |
| Transfer.Import | backend/src/assessments/assessment-import.service.ts:35-64 | Imports a document exactly when it has no problems, and otherwise reports them and writes nothing |
| Transfer.Duplicate | backend/src/assessments/assessments.service.ts:239-253 | A copy is written exactly when the exported document passes the gate |
| Transfer.FindsItsSection | backend/src/assessments/assessment-import.service.ts:156-175 | With names apart, a key or name finds its own section |
| Transfer.ImportedSection | backend/src/assessments/assessment-import.service.ts:171-175 | An imported question is filed in the section it names |
| Transfer.ImportKeysUnique | backend/src/assessments/canonical/snapshot.ts:89-149 | The snapshot of an imported test has unique ids |
| Transfer.CopyIsTwin | backend/src/assessments/canonical/snapshot.ts:89-149 | The snapshot of a duplicate is the original's up to renaming ids |
| DocumentLaws.CopyKeeps | backend/src/assessments/assessment-import.service.ts:150-198 | A copy's settings but for the name, its sections and its bands are the original's |
| Transfer.CopyScoresAlike | backend/src/assessments/assessments.service.ts:239-253 | Any answers to the original or to the copy score as the same choices in the other |
| CopyLaws.CopiedWhenNamesFree | backend/src/assessments/canonical/document-rules.ts:16-24 | A stored test can be duplicated if and only if no section name is another's name or key, ignoring case, and no two bands share a minimum |
| CopyLaws.AccentedNameRefused | backend/src/assessments/canonical/canonical.mapper.ts:27-40 | Two sections called Á and a cannot be duplicated: the key of one is the name of the other |
| CopyLaws.ImportIsStored | backend/src/assessments/assessment-import.service.ts:150-198 | Every imported test is trimmed and holds only normalized problem-free questions, so it can be exported again |
| CopyLaws.FileCopied | backend/src/assessments/assessment-import.service.ts:136-147 | A question's uploaded file comes along with a duplicate |
| CopyLaws.PublishableWhen | backend/src/assessments/canonical/canonical.mapper.ts:122-143 | With stored questions problem-free, a test can be published exactly when it has questions and their files |
| DocumentLaws.PublishComplains | backend/src/assessments/canonical/canonical.mapper.ts:122-143 | Publishing is stopped by exactly the problems a test has: no questions, a problem of one of them, or a file still to upload |
| CopyLaws.SentAsIs | backend/src/assessments/canonical/snapshot.ts:89-149 | What is sent is the test as it stands: every setting, section, question and column its own, the shuffle flag set on single-choice questions alone and by the question before the test, the bands highest first |
| CopyLaws.ExportedAsIs | backend/src/assessments/canonical/canonical.mapper.ts:42-116 | What is exported is the test as it stands, every column its own, each question under the key of its section and with its file's name |
| CopyLaws.FrozenMatchesExport | backend/src/assessments/canonical/snapshot.ts:108-138 | Sending and exporting read the same columns of a question; options are shuffled exactly on single-choice questions whose own setting, or without one the test's, says so |
| CopyLaws.PublishedKeyScoresOne | backend/src/assessments/take-view.ts:62-77 | A publishable test's own answer key scores full marks |
| OrderColumn.OneList | backend/src/assessments/questions.service.ts:555-557 | Distinct orders leave only one list to read |
| OrderColumn.NextOrder | backend/src/assessments/questions.service.ts:555-557 | The next order is one past the largest, and 0 for an empty test |
| OrderColumn.Inserted | backend/src/assessments/questions.service.ts:212-229 | Moving later rows down by one and adding a row just above another places it right after that one |
| OrderColumn.Removed | backend/src/assessments/questions.service.ts:233-240 | Deleting a row deletes it from the list and moves nothing else |
| OrderColumn.AcceptedWhenRearranged | backend/src/assessments/questions.service.ts:538-553 | A new order is accepted exactly when it is a permutation of the current list |
| OrderColumn.Renumber | backend/src/assessments/questions.service.ts:247-254 | After the renumbering loop the rows read in the order sent |
| CsvImport.MapSections | backend/src/assessments/questions.service.ts:303-308 | The loop maps each section's name and key, later sections winning |
| CsvImport.FindNewSections | backend/src/assessments/questions.service.ts:311-326 | The loop collects the names no section answers to, each once ignoring case |
| CsvImport.MakeReport | backend/src/assessments/questions.service.ts:356-385 | The dry-run report: the rows, the new sections and every error |
| CsvImport.CleanReport | backend/src/assessments/questions.service.ts:356-371 | No errors means a clean file with at most 100 questions and 20 sections in all, and each error is there exactly for its cause |
| CsvImport.NewNamesTaken | backend/src/assessments/questions.service.ts:311-326 | The new sections are the names nothing answers to, as the first row to give each writes it, in the order of those rows |
| CsvImport.NewNamesDiffer | backend/src/assessments/questions.service.ts:311-326 | Section names stay unique ignoring case with the new ones among them |
| CsvImport.EverySectionFound | backend/src/assessments/questions.service.ts:309-326 | Every row that names a section gets one |
| CsvImport.LandsInItsSection | backend/src/assessments/questions.service.ts:303-310 | A row that names a section of the test lands in it if and only if no later section has that name for its key |
| CsvImport.LandsInNewSection | backend/src/assessments/questions.service.ts:309-326 | A row that names a section the test does not have lands in a new section of that name if and only if no section of the test answers to the name or to its key |
| CsvImport.ForeignNameTakesOver | backend/src/assessments/questions.service.ts:303-308 | A section whose name has no letter a key can hold takes over the rows of a section called Item |
| CsvImport.ForeignNameMisfiled | backend/src/assessments/questions.service.ts:309-318 | A row naming such a section is filed under another such section, and the section it names is never made |
| Authoring.CopyFits | backend/src/assessments/questions.service.ts:207-210 | A stored question's copy is normalized and problem-free although nothing checks it again |
| Authoring.CleanCanSave | backend/src/assessments/questions.service.ts:356-390 | A report without errors is about rows that can all be saved |
| Authoring.TestTable.Create | backend/src/assessments/questions.service.ts:134-154 | Appends the prepared question, or refuses and changes nothing |
| EditLaws.PrepareMeans | backend/src/assessments/questions.service.ts:450-507 | A question is taken exactly when its section and file are there, no option id is sent twice and it is ready once normalized; otherwise the first of these that fails is the reason |
| EditLaws.RowHolds | backend/src/assessments/canonical/question-data.ts:12-48 | And its row holds just what was taken, a file in place of a name to upload one under |
| Authoring.TestTable.Update | backend/src/assessments/questions.service.ts:160-193 | Replaces one row in place, keeping the ids of options sent with one of its own |
| Authoring.TestTable.Duplicate | backend/src/assessments/questions.service.ts:196-231 | Inserts a copy straight after its original, with its section and its file or the name of the file still to upload, and changes no other row |
| Authoring.TestTable.Remove | backend/src/assessments/questions.service.ts:233-240 | Deletes one question and keeps the rest in order |
| Authoring.TestTable.Reorder | backend/src/assessments/questions.service.ts:242-254 | Puts the questions in the order sent exactly when it is a permutation of them |
| Authoring.TestTable.ChangeMethod | backend/src/assessments/assessments.service.ts:177-202 | The scoring method changes exactly when it is the same or the test has no questions |
| Authoring.TestTable.CreateSection | backend/src/assessments/questions.service.ts:62-83 | Adds a section exactly when there is room and its name is free, ignoring case |
| Authoring.TestTable.UpdateSection | backend/src/assessments/questions.service.ts:85-103 | Changes the parts sent of one section, exactly when it is there and no other section has the name, ignoring case |
| EditLaws.EditMeans | backend/src/assessments/questions.service.ts:85-103 | Only the parts that are sent change, and only of that section |
| Authoring.TestTable.RemoveSection | backend/src/assessments/questions.service.ts:105-113 | Deletes one section; its questions stay in their places without one, and no other row changes |
| EditLaws.UnfiledMeans | backend/src/assessments/questions.service.ts:105-113 | And nothing of them but the section |
| Authoring.TestTable.ReorderSections | backend/src/assessments/questions.service.ts:115-130 | Puts the sections in the order sent exactly when it is a permutation of their ids |
| Authoring.TestTable.ReplaceBands | backend/src/assessments/questions.service.ts:258-284 | Stores the bands sent, highest first, exactly when no two start at the same score |
| Authoring.TestTable.ImportCsv | backend/src/assessments/questions.service.ts:292-426 | A dry run changes nothing; a real run with the same report saves exactly the reported rows, in order, and the reported sections |
| Authoring.RowsFiled | backend/src/assessments/questions.service.ts:395-418 | After an import every row that names a section is filed under a section of the test, and names are still unique |
| AuthoringLaws.OnlyFilesStopPublishing | backend/src/assessments/canonical/canonical.mapper.ts:122-143 | After any staff operations, publishing can only miss questions or files |
| AuthoringLaws.ImportedIsOk | backend/src/assessments/assessment-import.service.ts:150-198 | An imported or duplicated test starts with the invariant every staff operation keeps |
| AuthoringLaws.EditedIsStored | backend/src/assessments/questions.service.ts:62-426 | After any staff operations the test is stored as duplicating and exporting expect, so the laws of copies and of re-imports hold of edited tests |
| AuthoringLaws.EditedCopiedWhenNamesFree | backend/src/assessments/assessments.service.ts:239-253 | After any staff operations a test can be duplicated if and only if no section name is another's name or key, ignoring case |
| ExportImport.RestoresExactly | backend/src/assessments/questions.service.ts:292-447 | A test's own CSV export, imported in place of its questions, is read without errors or new sections and brings every question back in its section, if and only if there is a question, the columns can say each one's options, and each one's section is found again by its name |
| ExportImport.MiddleWordingLost | backend/src/assessments/canonical/csv-questions.ts:319-338 | A three-point rating scale with wording in the middle, which a test can hold, is not brought back |
| ExportImport.ItemQuestionMoves | backend/src/assessments/questions.service.ts:303-310 | Nor is any question of a section called Item, when a later section's name has no letter a key can hold |
| ExportImport.ReplacedAlike | backend/src/assessments/questions.service.ts:387-418 | Such an import leaves the same sections and, in the same order, questions with the same columns, options and section |
| ExportImport.FileBack | backend/src/assessments/assessment-import.service.ts:105-147 | A question's uploaded file comes back with it if and only if it is the file its name stands for |
| Reimport.RowRereads | backend/src/assessments/canonical/csv-questions.ts:150-387 | The row of any stored question is read back clean, as one with the same columns and a scale's points numbered 1 to n, worded at the ends (or, on a choice scale, without the role's wording), or is refused: exactly when the role's value is none of 1 to n, or one of the two texts of a True/False question is missing |
| Reimport.CleanReimport | backend/src/assessments/questions.service.ts:292-447 | A test's own export is reported clean exactly when every question is read back, and the rows reported are then those |
| ReimportScores.SavedResaves | backend/src/assessments/questions.service.ts:387-418 | With sections found by their names, the import stores each question as it was read back, in its place and section |
| ReimportScores.ReimportKeepsResults | backend/src/assessments/canonical/scoring.ts:53-235 | After a clean re-import all choices give the same score, band, section scores and flags as before if and only if every scale had the values 1 to n |
| ReimportScores.RoleMoves | backend/src/assessments/canonical/csv-questions.ts:319-338 | Points 2, 3 and 4 with the middle one for the role are read back, without an error or a warning, with the last one for the role |
| Editor.CheckDraft | frontend/app/(app)/assessments/[id]/_components/question-draft.ts:247-280 | The form complains exactly about the drafts it should not send |
| Editor.ValuesClimb | frontend/app/(app)/assessments/[id]/_components/question-draft.ts:197-204 | The values a scale sends strictly increase |
| EditLaws.ScaleValuesMean | frontend/app/(app)/assessments/[id]/_components/question-draft.ts:197-204 | They are the values the options had when each had one and they climbed, and otherwise 1 to n |
| Editor.SentRole | frontend/app/(app)/assessments/[id]/_components/question-draft.ts:209-239 | The role's value is among the values sent exactly when an option is picked |
| EditLaws.InputMeans | frontend/app/(app)/assessments/[id]/_components/question-draft.ts:209-239 | All that is sent of a draft, column by column: texts trimmed, what the type has no use for left out, and the role's value that of the option picked |
| Editor.AcceptedWhenSaveable | frontend/app/(app)/assessments/[id]/_components/question-draft.ts:209-280 | The server accepts what is sent if and only if the form has no complaint |
| DraftEditor.Form.Empty | frontend/app/(app)/assessments/[id]/_components/question-draft.ts:129-149 | A new draft is of the method's first type, with its options |
| DraftEditor.Form.FromQuestion | frontend/app/(app)/assessments/[id]/_components/question-draft.ts:99-127 | A stored question opens as a draft the form can hold |
| EditLaws.OpenedMeans | frontend/app/(app)/assessments/[id]/_components/question-draft.ts:99-127 | Every column and option of it opens as it is, and the option with the role's value is picked |
| DraftEditor.Form.PadTo | frontend/app/(app)/assessments/[id]/_components/question-draft.ts:175-179 | The padding loop adds just enough blank options, each under a new key |
| DraftEditor.Form.OptionsFor | frontend/app/(app)/assessments/[id]/_components/question-draft.ts:152-173 | Changing type keeps the written options that fit and adds blank ones up to four, three or five; a True/False answer keeps the key, id and mark of the option that read like it |
| DraftEditor.Form.ResizeScale | frontend/app/(app)/assessments/[id]/_components/question-draft.ts:187-194 | Resizing keeps the first points and the end label at the end |
| DraftEditor.Form.ChangeType | frontend/app/(app)/assessments/[id]/_components/question-form.tsx:109-115 | Changing type keeps the details, and the pick only while its option is there |
| EditLaws.ChoicesCarried | frontend/app/(app)/assessments/[id]/_components/question-draft.ts:152-185 | On a choice type the first six options with text are carried over under their keys and ids, marked or worded as the type allows, with blank ones up to four or three |
| EditLaws.AnswersFixed | frontend/app/(app)/assessments/[id]/_components/question-draft.ts:152-160 | On True/False each answer is taken from the first option that reads like it, ignoring case and edge space, or is new |
| DraftEditor.Form.MarkRight | frontend/app/(app)/assessments/[id]/_components/options-editor.tsx:45-57 | Marks one option right and every other wrong |
| DraftEditor.Form.PickForRole | frontend/app/(app)/assessments/[id]/_components/options-editor.tsx:138-141 | Picks the role's answer and changes nothing else |
| DraftEditor.Form.AddOption | frontend/app/(app)/assessments/[id]/_components/options-editor.tsx:119-128 | Adds a blank option at the end while there is room |
| DraftEditor.Form.RemoveOption | frontend/app/(app)/assessments/[id]/_components/options-editor.tsx:151-157 | Removes one option while more than two are left; a scale is renumbered and forgets a removed pick |
| EditLaws.RemovedMeans | frontend/app/(app)/assessments/[id]/_components/options-editor.tsx:151-157 | Exactly the option goes and the others stay in order, without their values on a scale |
| DraftEditor.Form.Resize | frontend/app/(app)/assessments/[id]/_components/options-editor.tsx:143-149 | Sets the number of points, keeping the first points and the end label, and forgets a pick that went |
| DraftEditor.Form.Submit | frontend/app/(app)/assessments/[id]/_components/question-form.tsx:117-130 | After any sequence of the form's actions, what is sent has no problems and no repeated option id; what is held back would be refused; a saved question is not sent again when its input is the same |
| DraftEditor.IdsSentOnce | frontend/app/(app)/assessments/[id]/_components/question-draft.ts:209-239 | No draft sends an option id twice |
| DraftEditor.ServerTakesIt | backend/src/assessments/questions.service.ts:450-507 | A saveable draft passes every check of the server, if its section and file are still there |
| DraftEditor.UntouchedDraft | frontend/app/(app)/assessments/[id]/_components/question-draft.ts:99-239 | Opening a stored question and saving it again changes nothing its type uses |
| DraftEditor.UnchangedLosesNothing | frontend/app/(app)/assessments/[id]/_components/question-form.tsx:123-126 | A form that closes without sending had nothing its type uses to save |
| Sessions.Store.Create | backend/src/auth/sessions.service.ts:48-65 | A new session ends at the earlier of its idle time and 30 days |
| Sessions.Store.Renew | backend/src/auth/sessions.service.ts:87-97 | The write of a request renews a row that is still there, keeping the expiry formula, and revives none |
| Sessions.Store.Validate | backend/src/auth/sessions.service.ts:71-100 | An unrevoked session of an active user is accepted exactly before its expiry, and then renewed unless it was used within the hour |
| Sessions.Store.RevokeAllForUser | backend/src/auth/sessions.service.ts:109-120 | Deletes every session of the user but the one kept, and no other user's |
| Sessions.AcceptedBeforeBoth | backend/src/auth/sessions.service.ts:71-132 | A session is accepted exactly before both its idle and its absolute limit |
| Sessions.PacedIsAccepted | backend/src/auth/sessions.service.ts:71-132 | Requests at most the idle time less an hour apart keep a session accepted right up to 30 days |
| Sessions.KeptExactly | backend/src/auth/sessions.service.ts:71-132 | Being active every g milliseconds is enough to stay signed in if and only if g is at most the idle time less an hour |
| Sessions.LongestIdleOnlyLimit | backend/src/auth/sessions.service.ts:128-132 | With an idle time of 30 days only the 30-day limit counts |

## Left out

- Controllers, request validation, throttling, mail, storage, media uploads and the database engine: tables are maps or sequences, a call is one atomic step, and ids are unique numbers.
- The trimming that request validation applies to names and texts before the services run, with blank optional text sent on as none, and its limits on lengths and list sizes.
- Unicode: `toLowerCase` is modelled for the letters A to Z, `normalize('NFKD')` and accent stripping are an arbitrary function of the text, and strings are sequences of characters rather than UTF-16 units.
- Floating-point rounding: scores, weights and minimums are real numbers.
- Numbers in CSV cells too long for a double; whole numbers are unbounded.
- The wording of messages: problems, errors and warnings are values. The order warnings are listed in is not modelled.
- CsvImport.MakeReport: the warnings about new sections and missing files, and the preview's file column, are not in the report; the new sections and the rows they repeat are.
- Transfer.Import: slugs are not modelled, so neither is the refusal of a document whose slug another test has.
- Printing a question row fills a map of columns in the code; here it is a function from a question to its cells (`QuestionCsv.CellsOf`).
- The time zones and cookie of a session, and how tokens are made and hashed: a token is a key that is never issued twice.
- Two overlapping requests of one session near its expiry: the steps of a request keep the expiry formula in any order, but the acceptance laws are about requests one after the other.
- The free-slug search, publishing status, the free-text settings of a test that are only carried along, and `replace`, which the seed uses.
- Authoring.TestTable.ReorderSections: sections and bands are kept as lists; only the questions' `order` column is modelled as a column.
- Authoring.TestTable.ImportCsv: the file arrives as text, so the choice between UTF-8 and windows-1252 is not modelled, and which uploaded files match is given.
- Imports.WriteContent: the `mimeType` of a file is not kept in rows or snapshots.
- AttemptService.Service.Start: the overview and the reply that shows the layout and saved answers are not modelled as steps; `TakeView` says what the layout shows.
- AttemptRace.LateAnswerUnsettles: the guard that refuses revoked links, and expired ones of attempts not running, is not a step; requests arrive with any link, here one that has not expired.
- `mulberry32`: the sources of numbers range over all of them.
- Counts, statistics, settings views and other reads that compute nothing hard.
