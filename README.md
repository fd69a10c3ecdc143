# English-learning app core in Dafny

This project models the logic core of a Nuxt English-learning application and
proves properties of that model:

- The **vocabulary store** runs spaced repetition. A review moves mastery one
  step on a 0..5 scale, and the next review is scheduled 1, 3, 7, 14, 30 or 90
  days later. The store keeps an in-memory mirror of the user's entries and
  answers queries over it: words due for review, favourites, words by mastery,
  statistics and categories.
- The **learning store** keeps the lessons, exercises, progress records and
  profile it last fetched. It answers the derived questions: lesson
  completion, lesson score, overall percentage, streak, recent activity and
  completed lessons by level. `stores/learning.ts` is an older copy of the
  first 148 lines of `app/stores/learning.ts`. One module models both, and
  every citation of `app/stores/learning.ts` up to line 148 holds for
  `stores/learning.ts` at the same lines.
- The **three AI endpoints** generate exercises, explain an answer and
  generate feedback. Each one:
  - checks the request;
  - builds a prompt;
  - asks a chat-completion service;
  - validates the reply, falling back to a fixed answer where the code does;
  - classifies errors into HTTP status codes.
- The **`useAI` composable** is the client side of those endpoints. It picks
  the notice shown when generating exercises fails. It builds its own
  fallback explanation and feedback when the server cannot help.
- The **auth store** maps the auth service's errors to the wording users see.
  It shapes the results of signing up and signing in, and it updates the
  signed-in user on sign-out and on reading the current user.

Everything outside the program is a parameter of the model:

- each database or auth reply: the row, or the error;
- the completion service: a function from request to outcome;
- `JSON.parse`: a function from text to an optional JSON value;
- the configured API key;
- the current time, in integer milliseconds;
- the text the fetch client makes of a failed response.

Stores that update their state in place are classes with `modifies` clauses.
The mirror lookup (`findIndex`) is a loop method proved against its
specification function. Everything else is functions and lemmas.

The model follows the code in these behaviours:

- The exercise endpoint accepts any array of complete exercises, whatever
  `count` asked for. It does not accept only an empty array for a count of 0.
- `addWordToUserVocabulary` prepends a new entry to the mirror instead of
  appending it.
- `updateWordProgress` and `toggleFavorite` leave the mirror untouched when
  the id is not in it.

## Model

| member | source | states |
|---|---|---|
| Vocabulary.NextMastery | app/stores/vocabulary.ts:117-122 | a correct review raises mastery by one up to 5, an incorrect one lowers it by one down to 0; a level in 0..5 stays in 0..5 |
| Vocabulary.IntervalDays | app/stores/vocabulary.ts:125-126 | the interval is the table entry for the new mastery level, 1 day outside the table, always 1..90 |
| Vocabulary.IntervalDaysMonotone | app/stores/vocabulary.ts:125-126 | a higher mastery level never gets a shorter interval |
| Vocabulary.Reviewed | app/stores/vocabulary.ts:117-138 | the reviewed row has the new mastery, one more review, last review and update time now, next review now plus the interval in days, and every other field unchanged |
| Vocabulary.ReviewedSchedule | app/stores/vocabulary.ts:125-128 | a reviewed entry is not due within a day of the review and is always due 90 days after it |
| Vocabulary.CorrectNeverSooner | app/stores/vocabulary.ts:117-128 | answering correctly never brings the next review earlier than answering wrongly |
| Vocabulary.Added | app/stores/vocabulary.ts:78-84 | an added entry belongs to the user and word, at mastery 0 with no reviews, due now |
| Vocabulary.Favorited | app/stores/vocabulary.ts:167 | toggling a favourite changes only `is_favorite` |
| Vocabulary.ByNextReviewIsTotalPreorder | app/stores/vocabulary.ts:196 | ordering by next review time is a total preorder, so the sort is well defined |
| Vocabulary.DueEntries | app/stores/vocabulary.ts:193-195 | exactly the user's entries due by now, in mirror order |
| Vocabulary.WordsForReview | app/stores/vocabulary.ts:191-197 | exactly the user's due entries, a permutation of them, sorted by next review time |
| Vocabulary.WordsForReviewStable | app/stores/vocabulary.ts:196 | entries due at the same instant keep their mirror order |
| Vocabulary.FavoriteWords | app/stores/vocabulary.ts:199-203 | exactly the user's favourite entries, in mirror order |
| Vocabulary.WordsByMastery | app/stores/vocabulary.ts:205-209 | exactly the user's entries at the given level, in mirror order |
| Vocabulary.UserWords | app/stores/vocabulary.ts:212 | exactly the user's entries |
| Vocabulary.VocabularyStatsOf | app/stores/vocabulary.ts:211-221 | over the user's entries: the total, the number of positions at mastery 4 or more, at 1 to 3, at 0 and marked favourite, and the length of the review query; none exceeds the total |
| Seqs.CountPositions | app/stores/vocabulary.ts:216-219 | `filter(p).length` is the number of positions whose element satisfies `p` |
| Vocabulary.StatsPartition | app/stores/vocabulary.ts:216-218 | with no negative mastery, mastered, learning and new add up to the total |
| Vocabulary.Categories | app/stores/vocabulary.ts:236 | the category of each word, in order |
| Vocabulary.CategoriesMembership | app/stores/vocabulary.ts:236 | a category is listed iff some word has it |
| Vocabulary.CategoriesOf | app/stores/vocabulary.ts:235-238 | exactly the words' categories, each once, in ascending order |
| Vocabulary.AddedEntryIsDue | app/stores/vocabulary.ts:78-99 | after adding a word, its entry is in the user's review list from then on |
| Vocabulary.VocabularyStore.constructor | app/stores/vocabulary.ts:5-6 | the store starts with no words and no entries |
| Vocabulary.VocabularyStore.FetchVocabularyWords | app/stores/vocabulary.ts:39-46 | on success the words become `data` or empty and are returned; on error nothing changes |
| Vocabulary.VocabularyStore.FetchUserVocabulary | app/stores/vocabulary.ts:63-67 | on success the mirror becomes `data` or empty and is returned; on error nothing changes |
| Vocabulary.VocabularyStore.AddWordToUserVocabulary | app/stores/vocabulary.ts:91-103 | on success the stored entry replaces the one with the same word in place, or else is prepended, and is found there; on error nothing changes |
| Vocabulary.VocabularyStore.UpdateWordProgress | app/stores/vocabulary.ts:146-156 | on success the reviewed row replaces the entry with that id in place and nothing else changes; on error nothing changes |
| Vocabulary.VocabularyStore.ToggleFavorite | app/stores/vocabulary.ts:175-185 | on success the updated row replaces the entry with that id in place and nothing else changes; on error nothing changes |
| Mirror.FindIndex | app/stores/vocabulary.ts:94 | the loop returns the first index whose key matches, or -1 when none does |
| Mirror.ReplaceFirst | app/stores/vocabulary.ts:149-152 | only the entry at the first matching index is replaced; the length and every other entry stay |
| Mirror.UpsertPrepend | app/stores/vocabulary.ts:94-99 | an existing entry is replaced in place, a new one goes in front |
| Mirror.UpsertPrependThenFind | app/stores/vocabulary.ts:94-99 | after the upsert the new entry is the first with its key |
| Mirror.UpsertAppend | app/stores/learning.ts:122-127 | an existing entry is replaced in place, a new one goes at the end |
| Mirror.UpsertAppendThenFind | app/stores/learning.ts:122-127 | after the upsert the stored row is the first with its id |
| Sorting.SortBySorted | app/stores/vocabulary.ts:196 | the insertion sort returns a sorted sequence for any total preorder |
| Sorting.SortByStable | app/stores/vocabulary.ts:196 | the sort keeps the relative order of equal elements, as `Array.prototype.sort` does |
| Sorting.Dedupe | app/stores/vocabulary.ts:236 | the same elements, each once |
| Sorting.LexLeIsTotalPreorder | app/stores/vocabulary.ts:237 | lexicographic order on strings is total, transitive and antisymmetric |
| Learning.LessonProgress | app/stores/learning.ts:137-139 | exactly the lesson's records, in order |
| Learning.LessonProgressAppend | app/stores/learning.ts:137-139 | the lesson's records of two lists concatenated are those of each list concatenated |
| Learning.IsLessonCompleted | app/stores/learning.ts:141-144 | true iff some record of the lesson is completed and has no exercise |
| Learning.ExerciseProgress | app/stores/learning.ts:146-148 | the first record for the exercise, or none iff there is none |
| Learning.ScoredRecords | app/stores/learning.ts:151-152 | exactly the lesson's completed exercise records |
| Learning.TotalScore | app/stores/learning.ts:156 | the sum of scores (missing as 0) is between 0 and 100 per record when each score is |
| Learning.LessonScore | app/stores/learning.ts:150-158 | none iff no completed exercise record; otherwise the rounded mean of their scores |
| Learning.LessonScoreInRange | app/stores/learning.ts:150-158 | with scores in 0..100 the lesson score is in 0..100 |
| Learning.UniformScore | app/stores/learning.ts:156 | records all scoring s sum to s times their number |
| Learning.LessonScoreUniform | app/stores/learning.ts:150-158 | when every scored record has score s, the lesson score is s |
| Learning.OverallProgress | app/stores/learning.ts:160-165 | as written: 0 with no lessons, else the rounded percentage of completed lesson-level records over loaded lessons |
| Learning.OverallProgressExceedsHundred | app/stores/learning.ts:160-165 | as written, one loaded lesson and records completing two lessons give 200 |
| Learning.CompletedLessons | app/stores/learning.ts:160-162 | exactly the loaded lessons that are completed |
| Learning.OverallProgressOfLessons | app/stores/learning.ts:160-165 | corrected: the rounded percentage of loaded lessons completed, always 0..100 |
| Learning.OverallProgressOfLessonsAllDone | app/stores/learning.ts:160-165 | every loaded lesson completed gives 100 |
| Learning.OverallProgressOfLessonsNoneDone | app/stores/learning.ts:160-165 | no loaded lesson completed gives 0 |
| Learning.StreakDays | app/stores/learning.ts:167-184 | 0 without a profile or a last activity; otherwise the stored streak while the elapsed days rounded up are at most 1, else 0 |
| Learning.StreakKeptWithinADay | app/stores/learning.ts:173-183 | the streak is kept iff at most 24 hours have elapsed |
| Learning.StreakLostOnYesterdayActivity | app/stores/learning.ts:176-183 | activity yesterday at 08:00, asked today at 20:00, reports the streak broken |
| Learning.StreakDaysByCalendar | app/stores/learning.ts:178-183 | corrected: the streak is kept iff the last activity fell today or yesterday |
| Learning.CalendarStreakKeepsRecentStreaks | app/stores/learning.ts:176-183 | every streak the elapsed-time rule keeps, the calendar rule keeps too |
| Learning.NewestFirstIsTotalPreorder | app/stores/learning.ts:209 | newest-first by completion time is a total preorder |
| Learning.FinishedNewestFirst | app/stores/learning.ts:207-209 | exactly the completed records with a completion time, a permutation of them, newest first |
| Learning.RecentActivity | app/stores/learning.ts:206-211 | the first `limit` of those records (all of them when fewer), newest first |
| Learning.RecentActivityKeepsNewest | app/stores/learning.ts:206-211 | no record left out finished later than one returned |
| Learning.LessonsByLevel | app/stores/learning.ts:213-215 | exactly the lessons of the level, in order |
| Learning.CompletedLessonsByLevel | app/stores/learning.ts:217-220 | exactly the completed lessons of the level, a subsequence of the level's lessons |
| Learning.UpsertCompletesLesson | app/stores/learning.ts:122-127 | after storing a lesson-completing record, the lesson counts as completed |
| Learning.LearningStore.constructor | app/stores/learning.ts:5-8 | the store starts empty, with no profile |
| Learning.LearningStore.FetchLessons | app/stores/learning.ts:24-30 | on success the lessons become `data` or empty; on error nothing changes |
| Learning.LearningStore.FetchLesson | app/stores/learning.ts:39-48 | the row or the error is handed back; nothing changes |
| Learning.LearningStore.FetchExercises | app/stores/learning.ts:63-67 | on success the exercises become `data` or empty; on error nothing changes |
| Learning.LearningStore.FetchUserProgress | app/stores/learning.ts:81-85 | on success the mirror becomes `data` or empty; on error nothing changes |
| Learning.LearningStore.FetchUserProfile | app/stores/learning.ts:100-104 | on success the profile becomes the row; on error nothing changes |
| Learning.LearningStore.UpdateProgress | app/stores/learning.ts:119-131 | on success the stored row replaces the record with its id in place or is appended, and is found there; on error nothing changes |
| Learning.LearningStore.UpdateUserProfile | app/stores/learning.ts:195-199 | on success the profile becomes the stored row; on error nothing changes |
| Text.Trim | server/api/ai/explain-answer.post.ts:85 | the input with its white space removed at both ends and none left there |
| Text.TrimIdempotent | server/api/ai/explain-answer.post.ts:85 | trimming twice is trimming once |
| Text.TrimPadded | server/api/ai/explain-answer.post.ts:85 | white space added around a text trims away |
| Text.ToLower | server/api/ai/explain-answer.post.ts:85 | each character lowered, same length |
| Text.ToLowerIdempotent | server/api/ai/explain-answer.post.ts:85 | lowering twice is lowering once |
| Text.AnswersMatchPadded | server/api/ai/explain-answer.post.ts:85 | white space around an answer does not change the verdict |
| Text.AnswersMatchLowered | server/api/ai/explain-answer.post.ts:85 | the case of an answer does not change the verdict |
| Text.ReplaceFirstChar | server/api/ai/generate-exercise.post.ts:146 | only the first occurrence of the character is replaced |
| Text.JoinHolds | server/api/ai/explain-answer.post.ts:137 | every item appears in the joined text |
| Text.NatToStringRoundTrip | server/api/ai/generate-exercise.post.ts:146 | the decimal text of a number reads back as that number |
| Text.NatToStringInjective | server/api/ai/generate-exercise.post.ts:146 | different numbers print differently |
| Text.Quoted | server/api/ai/generate-exercise.post.ts:146 | the text between two double quotes |
| Text.BoolToString | server/api/ai/explain-answer.post.ts:147 | a boolean prints as `true` exactly when it is true |
| Json.Field | server/api/ai/explain-answer.post.ts:73 | a property is present iff the value is an object with that key, and is its value |
| Json.Spread | server/api/ai/explain-answer.post.ts:77-80 | the spread object has both sets of keys, the spread-in values winning |
| Json.SuccessSpreadFields | server/api/ai/explain-answer.post.ts:77-80 | `{ success: true, ...x }` keeps every property of x, including a `success` of its own, and adds nothing else |
| Json.Strings | server/api/ai/generate-feedback.post.ts:93-95 | a list of strings as a JSON array, item by item |
| Completion.HttpFailure | server/api/ai/generate-exercise.post.ts:25-28 | `createError` carries the status code and message and nothing else |
| Completion.ReplyText | server/api/ai/generate-exercise.post.ts:61-67 | the reply text is present iff the service completed with non-empty content |
| Completion.Ask | server/api/ai/generate-exercise.post.ts:31-67 | no key: 500 and nothing sent; else the request is sent and its failure, its missing text (500) or its text is the outcome |
| Completion.Caught | server/api/ai/generate-exercise.post.ts:96-101 | an error with a status code passes unchanged, any other becomes what the endpoint's mapping gives |
| Completion.Respond | server/api/ai/generate-exercise.post.ts:84-101 | success iff the attempt succeeded, with its body; else the caught error |
| Completion.Run | server/api/ai/generate-exercise.post.ts:31-129 | the request is sent iff a key is configured, and it is the request given |
| Completion.RunSucceeds | server/api/ai/generate-exercise.post.ts:61-87 | the handler succeeds iff a key is configured, the service answers with text and the endpoint accepts it; the body is the accepted answer |
| Completion.RunFails | server/api/ai/generate-exercise.post.ts:36-128 | every failure is the missing key, the missing text, or a caught service or validation error |
| Completion.RaisedErrorsPassThrough | server/api/ai/generate-exercise.post.ts:99-101 | an error the handler raised reaches the client with its own status and message |
| GenerateExercise.CountOf | server/api/ai/generate-exercise.post.ts:22 | `count` defaults to 1 |
| GenerateExercise.UnknownKeysReadUndefined | server/api/ai/generate-exercise.post.ts:133-149 | a level or type outside the tables prints `undefined` |
| GenerateExercise.OptionsLineOnlyForMultipleChoice | server/api/ai/generate-exercise.post.ts:163 | the template's options line asks for `options` iff the type is multiple choice |
| GenerateExercise.PromptMentions | server/api/ai/generate-exercise.post.ts:146-166 | the prompt states the count and the type with its first `_` as a space, quotes the topic, names the type and level in the template, and asks for options for multiple choice |
| GenerateExercise.IntroHeadStates | server/api/ai/generate-exercise.post.ts:146 | the opening words hold the printed count and the type with its first `_` as a space |
| GenerateExercise.PromptOpensWithRequest | server/api/ai/generate-exercise.post.ts:146 | the prompt holds the printed count, the type with its first `_` as a space, and the level of the opening line |
| GenerateExercise.PromptQuotesTopic | server/api/ai/generate-exercise.post.ts:146 | the prompt quotes the topic |
| GenerateExercise.PromptNamesType | server/api/ai/generate-exercise.post.ts:162 | the template names the requested type |
| GenerateExercise.PromptNamesLevel | server/api/ai/generate-exercise.post.ts:166 | the template names the requested level |
| GenerateExercise.PromptAsksForOptions | server/api/ai/generate-exercise.post.ts:163 | a multiple-choice prompt asks for the `options` field |
| GenerateExercise.CompletionCall | server/api/ai/generate-exercise.post.ts:45-59 | the model, system message, temperature 0.7, 1000 tokens and the prompt |
| GenerateExercise.SuccessBody | server/api/ai/generate-exercise.post.ts:84-87 | the body has exactly `success: true` and the exercises |
| GenerateExercise.Answer | server/api/ai/generate-exercise.post.ts:69-94 | accepted iff the reply parses to an array of complete exercises, then the success body of that array; otherwise 500 with the parse message |
| GenerateExercise.Recover | server/api/ai/generate-exercise.post.ts:103-128 | 429 and 401 keep their codes, `insufficient_quota` becomes 429, anything else 500 with its message or the default |
| GenerateExercise.Handle | server/api/ai/generate-exercise.post.ts:19-130 | a missing topic, level or type gives 400 with nothing sent; the request is sent iff the fields and a key are given, and it is the endpoint's prompt |
| GenerateExercise.HandleSucceeds | server/api/ai/generate-exercise.post.ts:61-87 | success iff the fields and a key are given and the reply text parses to complete exercises; the body holds exactly those exercises |
| GenerateExercise.HandleErrorCodes | server/api/ai/generate-exercise.post.ts:96-128 | every failure is 400, 401, 429 or 500, or the service's own coded error passed on |
| GenerateExercise.QuotaErrorsAre429 | server/api/ai/generate-exercise.post.ts:104-123 | a rate-limit or quota error of the service is a 429 |
| ExplainAnswer.OptionsShownOnlyForMultipleChoice | server/api/ai/explain-answer.post.ts:135-138 | the options text is non-empty iff options were sent for a multiple-choice exercise |
| ExplainAnswer.TranslationNoteOnlyForTranslation | server/api/ai/explain-answer.post.ts:156 | the translation note appears iff the type is translation |
| ExplainAnswer.PromptStatesVerdict | server/api/ai/explain-answer.post.ts:147 | the prompt states the trimmed, case-insensitive verdict |
| ExplainAnswer.PromptEchoesVerdict | server/api/ai/explain-answer.post.ts:161 | the JSON template asks back for that same verdict |
| ExplainAnswer.PromptHasQuestionLine | server/api/ai/explain-answer.post.ts:144 | the prompt quotes the question followed by the options text |
| ExplainAnswer.PromptListsOptions | server/api/ai/explain-answer.post.ts:135-144 | every option of a multiple-choice exercise appears in the prompt |
| ExplainAnswer.CompletionCall | server/api/ai/explain-answer.post.ts:45-59 | the model, system message, temperature 0.3, 800 tokens and the prompt |
| ExplainAnswer.FallbackBody | server/api/ai/explain-answer.post.ts:87-93 | success, the raw text as explanation, the verdict, empty tips and concepts |
| ExplainAnswer.Answer | server/api/ai/explain-answer.post.ts:69-94 | always a success: the parsed object spread after `success` when it has an explanation and a boolean verdict, else the fallback with the handler's own verdict |
| ExplainAnswer.Recover | server/api/ai/explain-answer.post.ts:104-121 | 429 and 401 keep their codes, anything else is 500; no quota-code branch |
| ExplainAnswer.Handle | server/api/ai/explain-answer.post.ts:19-123 | any missing field, an empty answer included, gives 400 with nothing sent; the request is sent iff the fields and a key are given |
| ExplainAnswer.AnsweredMeansSuccess | server/api/ai/explain-answer.post.ts:69-94 | any reply text gives success: the spread explanation, or the fallback whose verdict is the one the prompt stated |
| ExplainAnswer.HandleErrorCodes | server/api/ai/explain-answer.post.ts:96-121 | every failure is 400, 401, 429 or 500, or the service's own coded error passed on |
| GenerateFeedback.CompletionRate | server/api/ai/generate-feedback.post.ts:115 | `Math.round` of the completion percentage, bounded by the half-up rounding inequalities; none for zero exercises |
| GenerateFeedback.RateText | server/api/ai/generate-feedback.post.ts:115-122 | the printed rate, `NaN` or an infinity for zero exercises |
| GenerateFeedback.RateWithinBounds | server/api/ai/generate-feedback.post.ts:115 | with completed between 0 and the total the rate is 0..100 |
| GenerateFeedback.RateOfWholeLesson | server/api/ai/generate-feedback.post.ts:115 | all completed is 100, none completed is 0 |
| GenerateFeedback.AreasListed | server/api/ai/generate-feedback.post.ts:124-125 | every area of a non-empty list is printed |
| GenerateFeedback.PromptQuotesTopic | server/api/ai/generate-feedback.post.ts:120 | the prompt quotes the lesson topic |
| GenerateFeedback.PromptStatesProgress | server/api/ai/generate-feedback.post.ts:122 | the prompt states completed/total and the rate |
| GenerateFeedback.PromptListsAreas | server/api/ai/generate-feedback.post.ts:124-125 | every strong and weak area appears in the prompt |
| GenerateFeedback.CompletionCall | server/api/ai/generate-feedback.post.ts:49-63 | the model, system message, temperature 0.7, 1000 tokens and the prompt |
| GenerateFeedback.FallbackBody | server/api/ai/generate-feedback.post.ts:89-96 | success, the fixed motivation, the raw text as feedback and the fixed lists |
| GenerateFeedback.Answer | server/api/ai/generate-feedback.post.ts:73-97 | always a success: the parsed object spread after `success` when both messages are present, else the fallback |
| GenerateFeedback.Recover | server/api/ai/generate-feedback.post.ts:106-109 | every other error is 500 with its message, or the default when empty |
| GenerateFeedback.Handle | server/api/ai/generate-feedback.post.ts:23-111 | a missing topic, progress or level gives 400 with nothing sent; the request is sent iff they and a key are given |
| GenerateFeedback.AnsweredMeansSuccess | server/api/ai/generate-feedback.post.ts:73-97 | any reply text gives success: the spread feedback or the fallback |
| GenerateFeedback.HandleErrorCodes | server/api/ai/generate-feedback.post.ts:99-109 | every failure is 400 or 500, or the service's own coded error passed on |
| UseAi.Delivered | app/composables/useAI.ts:37-45 | a success resolves with the body, an HTTP error rejects with its status code |
| UseAi.ErrorNotice | app/composables/useAI.ts:57-63 | quota notice iff status 429 or a message mentioning quota; configuration iff otherwise 401; unavailable otherwise |
| UseAi.NoQuotaWithoutQ | app/composables/useAI.ts:57 | a message without a `q` never counts as a quota error |
| UseAi.OwnErrorsAreUnavailable | app/composables/useAI.ts:47-52 | the client's own errors show the unavailable notice |
| UseAi.ExerciseBody | app/composables/useAI.ts:29-45 | the posted request carries the topic, level, type and a count defaulting to 1 |
| UseAi.Rethrown | app/composables/useAI.ts:53-65 | a caught error is rethrown with the notice it calls for |
| UseAi.FromResponse | app/composables/useAI.ts:47-52 | a successful response with exercises returns them and announces their number; each other case throws its own error |
| UseAi.GenerateExercisesAsWritten | app/composables/useAI.ts:37-52 | as written: a rejection is rethrown; otherwise the client reads `data` out of the body |
| UseAi.SuccessLostAsWritten | app/composables/useAI.ts:37-52 | as written, every success body of the endpoint ends in an unavailable notice; read directly, it returns the exercises |
| UseAi.GenerateExercises | app/composables/useAI.ts:37-65 | corrected: a rejection is rethrown, a body is read as the response itself |
| UseAi.FailuresAreRethrown | app/composables/useAI.ts:53-65 | every rejection is rethrown unchanged with its notice, in both readings |
| UseAi.ExercisesReachClient | app/composables/useAI.ts:37-52 | when the endpoint succeeds the client returns exactly its complete exercises and announces their number |
| UseAi.QuotaReachesClient | app/composables/useAI.ts:57-58 | a rate-limit or quota failure of the service shows the quota notice |
| UseAi.VariationsBody | app/composables/useAI.ts:171-180 | variations ask for multiple choice on "Similar to: " and the question, 3 by default |
| UseAi.VariationsAskForOptions | app/composables/useAI.ts:171-180 | a variations request passes the endpoint's check when a level is given, and its prompt asks for options |
| UseAi.OrElse | app/composables/useAI.ts:100-101 | a falsy value gives way to the default |
| UseAi.FallbackExplanation | app/composables/useAI.ts:106-115 | the verdict is the trimmed, case-insensitive comparison; the text praises or quotes the correct answer; no tips or concepts |
| UseAi.ExplainAnswerReply | app/composables/useAI.ts:93-115 | a successful body gives its fields with missing lists empty; anything else the fallback |
| UseAi.ExplainBody | app/composables/useAI.ts:81-91 | the posted request carries all six arguments, and the endpoint accepts it iff none of the five strings is empty |
| UseAi.StudentVerdictUnanswered | app/composables/useAI.ts:81-115 | end to end: when the endpoint refuses the request or the service gives no text, the student gets the client's own fallback explanation |
| UseAi.StudentVerdictAnswered | app/composables/useAI.ts:93-102 | end to end: once the service answers, the verdict is the service's when its explanation is spread into a successful body, else the trimmed, case-blind comparison of the two answers |
| UseAi.SpreadRefusedVerdict | server/api/ai/explain-answer.post.ts:77-80 | an explanation carrying a falsy `success` of its own overrides the body's, so the client falls back to its own verdict |
| UseAi.EmptyAnswerJudgedByClient | server/api/ai/explain-answer.post.ts:23-28 | an empty answer gets a 400 with nothing sent, and the client's verdict is its own comparison of the empty answer |
| UseAi.ServerVerdictReachesClient | app/composables/useAI.ts:97-102 | the server fallback's verdict is the one the client returns |
| UseAi.ClientVerdictOnFailure | app/composables/useAI.ts:106-112 | when the endpoint fails the client makes the same comparison itself |
| UseAi.FallbackFeedback | app/composables/useAI.ts:157-165 | the rate and topic messages and the fixed lists |
| UseAi.FallbackFeedbackShape | app/composables/useAI.ts:162-164 | three next steps, two topics, two tips |
| UseAi.SevenOfTen | app/composables/useAI.ts:158-160 | seven of ten exercises reads as 70% |
| UseAi.GenerateFeedbackReply | app/composables/useAI.ts:143-165 | a successful body gives its fields with missing lists empty; anything else the fallback |
| UseAi.FeedbackBody | app/composables/useAI.ts:134-141 | the posted request carries the topic, progress and level, and the endpoint accepts it iff neither string is empty |
| UseAi.StudentFeedbackUnanswered | app/composables/useAI.ts:134-165 | end to end: when the endpoint refuses the request or the service gives no text, the student gets the client's own fallback feedback |
| UseAi.StudentFeedbackAnswered | app/composables/useAI.ts:143-155 | end to end: a reply that is not valid feedback reaches the student as the specific feedback under the fixed motivation; valid feedback reaches the student as written |
| UseAi.FeedbackFallbackReachesClient | app/composables/useAI.ts:143-153 | the server's fallback reaches the user with the reply text as feedback and the server's fixed advice |
| Auth.AuthErrorMessage | app/stores/auth.ts:5-22 | each of the six known messages maps to its wording; any other passes through, an empty one becomes the generic text |
| Auth.AuthErrorMessageNeverEmpty | app/stores/auth.ts:19-20 | the user is never shown an empty error |
| Auth.AuthErrorMessageIdempotent | app/stores/auth.ts:5-22 | no wording is itself a known message, so mapping twice is mapping once |
| Auth.Settle | app/stores/auth.ts:42-74 | no error iff the call returned without one, then its data; a reported error gives its mapped wording; a thrown one its message or the fallback |
| Auth.SignUp | app/stores/auth.ts:29-78 | the settled result; after a successful sign-up with a user, the users row and, unless that insert threw, the profile row |
| Auth.ProfileFailureKeepsSignUp | app/stores/auth.ts:65-71 | a failing profile insert does not change the sign-up result |
| Auth.SignUpRefused | app/stores/auth.ts:42-45 | a refused sign-up returns no data and the mapped wording, and inserts nothing |
| Auth.SignIn | app/stores/auth.ts:80-100 | the settled result with the sign-in fallback |
| Auth.SettledErrorsNotEmpty | app/stores/auth.ts:72-74 | an error returned to the caller is never empty |
| Auth.AuthStore.constructor | app/stores/auth.ts:25 | no user is signed in at first |
| Auth.AuthStore.SignOut | app/stores/auth.ts:102-118 | the user is cleared iff the service reports no error; a reported error gives the retry message, a thrown one its message or the fallback |
| Auth.AuthStore.GetCurrentUser | app/stores/auth.ts:120-139 | the service's user is stored and returned; any error or throw stores and returns none |

## Left out

- Database query building and ordering: filters, `ilike` search, `order`, `limit` and `searchWords` run in the database. Each reply is a parameter already filtered and ordered.
- The `times_reviewed + 1` expression runs in the database. In the model, the reply of an update call stands for the row before the update: for `updateWordProgress` the row with that id, for `addWordToUserVocabulary` the matched row or the defaults. The model applies the update's fields and the `+ 1` to that row, as the database would, and stores the result.
- The `loading` flags, `readonly`, console logging and toast display are left out. For `generateExercises`, the model keeps which notice is chosen and its text (`UseAi.NoticeText`).
- The `onAuthStateChange` listener is event-driven and not part of this model.
- `app/composables/useToast.ts`, `types/index.ts` beyond the row types, and the Nuxt configuration are not part of this model.
- Wall-clock time is an integer number of milliseconds passed in as `now`. `setDate(getDate() + n)` becomes `now + n` days of 86 400 000 ms, so daylight-saving shifts are not modelled. Parsing ISO date strings is not modelled either.
- `Math.round` of a ratio is exact rational half-up rounding. The floating-point error of `(a / b) * 100` at exact ties is not modelled.
- `UseAi.FallbackFeedback`, `GenerateFeedback.CompletionRate`: a non-integer or non-finite progress count is not modelled. Counts are integers.
- `GenerateFeedback.PromptStatesProgress`: `averageScore` is an integer in the model and is printed as decimal digits. The source's `number` may be fractional or non-finite (85.5, `NaN`), and JavaScript's printing of such values is not modelled.
- `Text.ToLower` lowers ASCII letters only. Full Unicode case mapping is not modelled.
- `Sorting.LexLe` orders strings by code point. `Array.prototype.sort` compares UTF-16 code units, which differs only for characters outside the Basic Multilingual Plane.
- `JSON.parse` is a parameter. JSON numbers are reals, and JSON objects are maps, so key order is not modelled.
- `GenerateExercise.LevelDescription`, `GenerateExercise.TypeInstruction`: a key naming an `Object.prototype` property (such as `constructor`) reads that property in the source. The model reads `undefined`.
- The completion SDK is a parameter, as are its constructor and the API-key lookup in runtime configuration and the environment. The model receives the key the client would hold.
- Request bodies have optional string fields. Non-string values, a non-integer `count`, and a `userProgress` missing its arrays (which makes the prompt builder throw) are not modelled.
- `UseAi.Delivered`: the message of the error `$fetch` rejects with is a parameter (`describe`). Its exact wording comes from the fetch library.
- The wording of the engine's `TypeError` messages is modelled as V8 prints them (`UseAi.CannotRead`).
- `GenerateExercise.PromptAsksForOptions`: the options field is proved present in the whole prompt for multiple choice. For other types, absence is proved only for the options line of the template (`GenerateExercise.OptionsLineOnlyForMultipleChoice`), not for the whole prompt.
- `Vocabulary.StatsPartition` requires non-negative mastery levels. The database keeps mastery in 0..5, while the query itself would not count a negative level in any class.
- `Auth.SignUp`: the `email!` assertion is modelled as a string always being present. The outcome of the profile inserts is modelled only as whether the first insert threw, because the source ignores their results otherwise.

## Findings

| source | as written | input that shows it | evidently intended | confidence | as-written member | corrected member |
|---|---|---|---|---|---|---|
| app/composables/useAI.ts:37-52 | destructures `data` from the value `$fetch` resolves with, which is the endpoint's body `{ success, exercises }` itself | any successful reply of the exercise endpoint: `data` is undefined, reading `data.success` throws, and the user sees "AI Service Unavailable" | read `success` and `exercises` from the response itself | high, not executed | UseAi.SuccessLostAsWritten | UseAi.ExercisesReachClient |
| app/stores/learning.ts:160-165 | counts every completed lesson-level progress record, for any lesson, against the number of lessons loaded | one lesson loaded; completion records for lessons `l1` and `l2` give 200% | the share of loaded lessons that are completed, 0..100 | medium, not executed | Learning.OverallProgressExceedsHundred | Learning.OverallProgressOfLessons |
| app/stores/learning.ts:176-183 | keeps the streak while the elapsed time, rounded up to days, is at most 1 | last activity yesterday at 08:00, asked today at 20:00: 36 hours elapsed, streak reported as 0 | keep the streak when the last activity was today or yesterday, as the comment at line 178 says | medium, not executed | Learning.StreakLostOnYesterdayActivity | Learning.StreakDaysByCalendar |
