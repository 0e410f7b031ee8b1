# Interview-preparation backend: business rules in Dafny

This project models the business-rule layer of a FastAPI + Cassandra backend for interview
preparation. The layer covers:

- progress analytics and mastery tracking;
- keyword scoring of spoken answers;
- job ranking and extraction;
- the table logic of the HTTP routes for questions, answers, jobs, users and media files.

Every table is a sequence of rows, in storage order, held in a field of the class
`Schema.Store`. `Store.Valid()` says that every primary key is unique and that progress rows
count at least one attempt. Every state-changing operation is a method that keeps `Valid()`.

The statements the routes run are modelled as follows:

- `INSERT` replaces the row with the same primary key or appends one. This is Cassandra's upsert (`Seqs.PutRow`).
- `UPDATE ... WHERE` changes only the rows that match (`Seqs.UpdateWhere`).
- `DELETE ... WHERE` drops exactly the rows that match (`Seqs.DeleteWhere`).
- `.one()` returns the first matching row (`Seqs.FirstMatch`).
- `ORDER BY x DESC` is a stable sort on the negated key. So is Python's `sorted(..., reverse=True)` (`Sorting.SortBy`).

The outside world enters only as parameters:

- fresh ids (`uuid4()`) and clock readings (`datetime.now()`);
- the job-board fetchers;
- the password hash, the password check and the token signer;
- the S3 upload, delete and presign calls, modelled as success or failure outcomes.

Scores, averages and mastery are exact `real`s. Dates are proleptic-Gregorian ordinal days,
with Python's `weekday()` (`Dates.Weekday`).

Modules follow the source files:

| module | source |
|---|---|
| `ProgressService` | `backend/app/services/progress_service.py` |
| `VoiceService` | `backend/app/services/voice_service.py` |
| `JobService` | `backend/app/services/job_service.py` |
| `InterviewRoutes`, `JobRoutes`, `UserRoutes`, `MediaRoutes` | `backend/app/routes/*.py` |
| `Schema` | row shapes of `backend/app/models/*.py` and the tables |
| `Outcomes`, `Text`, `Numbers`, `Dates`, `Seqs`, `Sorting` | shared building blocks |

The dictionary-accumulating loops of the statistics service are methods with loop invariants.
`ProgressService.Bucketize` is shared by the weekly and the per-category pass. Each method is
proved equal to a specification function (`Buckets`, `StatisticsOf`, `Recommendations`,
`StudyPlanOf`), and the promised properties are lemmas about those functions.

A progress row inserted by answer submission has a NULL `mastery_level`. On such a row,
`update_mastery_level` evaluates `None * attempts` and raises. The model keeps this error path:
`ProgressService.MasteryUpdated` returns `None`, and `UpdateMasteryLevel` then changes nothing
and returns `false`.

## Model

| member | source | states |
|---|---|---|
| ProgressService.GetUserStatistics | backend/app/services/progress_service.py:11-53 | The statistics equal `StatisticsOf`: the attempt count, the completed count, the mean of the truthy scores, and the weekly and category buckets; the other counters are their initial values |
| ProgressService.CountAttempts | backend/app/services/progress_service.py:39-44 | The loop counts every answer and collects exactly the truthy scores, in order |
| ProgressService.CountCompleted | backend/app/services/progress_service.py:46-48 | The loop counts the progress rows whose status is completed |
| ProgressService.StatisticsCounts | backend/app/services/progress_service.py:41-48 | The attempt count is the number of the user's answers; the weekly counts add up to it; the category counts add up to at most it; the completed count is at most the user's progress rows |
| ProgressService.StatisticsAveragesInUnit | backend/app/services/progress_service.py:50-51 | With stored scores in [0, 1], the overall average and every bucket average lie in [0, 1] |
| ProgressService.AnswersOfAreTheUsers | backend/app/services/progress_service.py:14-18 | The answers read are exactly the user's rows, each as often as stored |
| ProgressService.TruthyScoresStep | backend/app/services/progress_service.py:43-44 | An answer adds its score to the list exactly when the score is truthy (not None, not 0.0) |
| ProgressService.Bucketize | backend/app/services/progress_service.py:57-75 | The defaultdict loop and the averaging pass produce `Buckets`: one entry per key, in first-seen order, with the count and the mean of the truthy scores (0.0 when there are none) |
| ProgressService.Accumulate | backend/app/services/progress_service.py:63-67 | After the first loop, the dict's keys are the first-seen keys and each entry holds that key's count and score list so far |
| ProgressService.AddAnswer | backend/app/services/progress_service.py:64-67 | One loop step keeps the dict in step with the answers scanned so far |
| ProgressService.AccsMatchAdd | backend/app/services/progress_service.py:65-67 | An answer with key k adds k to the dict if new, counts one more attempt and appends its truthy score |
| ProgressService.AccsMatchSkip | backend/app/services/progress_service.py:91-94 | An answer with no bucket (unknown question) leaves the dict unchanged |
| ProgressService.FirstKeysExact | backend/app/services/progress_service.py:75 | The reported keys are distinct, contain every answer's key, and each has at least one answer |
| ProgressService.BucketsOver | backend/app/services/progress_service.py:70-75 | Each reported item is the key paired with its bucket |
| ProgressService.BucketsCountKeyed | backend/app/services/progress_service.py:63-65 | The bucket counts add up to the number of answers that have a bucket |
| ProgressService.BucketAverageInUnit | backend/app/services/progress_service.py:70-72 | With scores in [0, 1], a bucket's average is in [0, 1] |
| ProgressService.WeeklyProgress | backend/app/services/progress_service.py:55-75 | The weekly pass is `Buckets` keyed by the answer's date minus its weekday |
| ProgressService.WeeklyTotalIsAnswerCount | backend/app/services/progress_service.py:63-65 | Every answer is counted in exactly one week, so the week counts add up to the number of answers |
| ProgressService.WeeklyBucketsAreCalendarWeeks | backend/app/services/progress_service.py:64 | Week keys are distinct Mondays, and each week counts exactly the answers dated in its seven days |
| ProgressService.WeekBucketIsCalendarWeek | backend/app/services/progress_service.py:64 | A week key is a Monday, and the answers with that key are those dated from it to six days later |
| ProgressService.WeeklyBucketsCoverAnswers | backend/app/services/progress_service.py:63-65 | Every answer's date lies in the seven days of some reported week |
| ProgressService.CategoryPerformance | backend/app/services/progress_service.py:77-102 | The category pass is `Buckets` keyed by the looked-up question's category, skipping answers whose question is missing |
| ProgressService.CategoryTotalIsKnownAnswerCount | backend/app/services/progress_service.py:85-94 | The category counts add up to the number of answers whose question exists, which is at most the number of answers |
| ProgressService.CategoryBucketsAreCategories | backend/app/services/progress_service.py:91-94 | Category keys are distinct, and each is the category of a stored question |
| ProgressService.CategoryBucketsCoverKnownAnswers | backend/app/services/progress_service.py:91-94 | Every answer whose question exists has its category among the buckets |
| ProgressService.GetRecommendedQuestions | backend/app/services/progress_service.py:104-133 | The loop returns `Recommendations`: categories in ascending average order, each fetch limited to `limit - len(so_far)`, stopping once `limit` is reached |
| ProgressService.RecommendationsAtMostLimit | backend/app/services/progress_service.py:118-129 | At most `limit` questions are recommended, and none when `limit` is not positive |
| ProgressService.RecommendFromBound | backend/app/services/progress_service.py:118-131 | Starting below the limit, the loop never goes past it |
| ProgressService.RecommendationsAreUnattempted | backend/app/services/progress_service.py:123-131 | Every recommended question is stored, has no progress row of the user, and is in a category the user has answered in |
| ProgressService.RecommendFromSound | backend/app/services/progress_service.py:118-131 | Each question the loop adds comes from the category being visited and has no progress row of the user |
| ProgressService.FetchedCategory | backend/app/services/progress_service.py:123-129 | A fetched chunk holds only questions of the requested category |
| ProgressService.RecommendationsWeakestFirst | backend/app/services/progress_service.py:111-118 | The recommendations come in non-decreasing order of their category's average score |
| ProgressService.RecommendFromOrdered | backend/app/services/progress_service.py:118-131 | Over categories sorted by average, the concatenated chunks are in non-decreasing category-average order |
| ProgressService.StatisticsCategoriesDistinct | backend/app/services/progress_service.py:102 | The category performance has one item per category |
| ProgressService.UpdateMasteryLevel | backend/app/services/progress_service.py:135-171 | The new progress table is `MasteryUpdated`, or nothing changes when the stored mastery is NULL; keys stay unique |
| ProgressService.MasteryUpdatedEffect | backend/app/services/progress_service.py:147-171 | An existing row gets mastery (m*a+s)/(a+1), attempts a+1 and the new attempt date; no other row changes. A missing row becomes a new in-progress row with one attempt and mastery s. A NULL mastery is an error |
| ProgressService.MasteryUpdatedKeepsKeysUnique | backend/app/services/progress_service.py:142-171 | At most one row per (user, question) after the upsert |
| ProgressService.MasteryUpdatedKeepsAttemptsPositive | backend/app/services/progress_service.py:154 | Attempts stay at least one |
| ProgressService.MasteryInUnit | backend/app/services/progress_service.py:149 | With m and s in [0, 1] and a ≥ 0 attempts, the new mastery is in [0, 1] |
| ProgressService.MasteryIsMean | backend/app/services/progress_service.py:149 | Folding the running-mean update over a list of scores, starting from a first insert, gives their arithmetic mean |
| ProgressService.ApplyScoresTracksMean | backend/app/services/progress_service.py:147-171 | A sequence of updates on a fresh (user, question) leaves one row whose attempts are the number of scores and whose mastery is their mean |
| ProgressService.GetStudyPlan | backend/app/services/progress_service.py:173-199 | The plan equals `StudyPlanOf`: the three weakest categories, the recommendations with limit 10, three daily goals and the improvement estimate |
| ProgressService.FocusAreasAreWeakest | backend/app/services/progress_service.py:176-191 | At most three focus areas, weakest first, each a category with its average, and the practice time set by its score |
| ProgressService.FocusAreas | backend/app/services/progress_service.py:184-191 | One focus area per weak category |
| ProgressService.LeftOutCategoriesScoreHigher | backend/app/services/progress_service.py:176-179 | Every category left out of the focus areas scores at least as high as every one kept |
| ProgressService.StudyPlanShape | backend/app/services/progress_service.py:183-199 | Three daily goals, the first naming the number of weak areas; at most three focus areas and ten recommended questions |
| ProgressService.PracticeTime | backend/app/services/progress_service.py:188 | "30 minutes" exactly when the score is below 0.6, else "15 minutes" |
| ProgressService.ImprovementTime | backend/app/services/progress_service.py:201-209 | "1-2 weeks" exactly above 0.8, "2-3 weeks" exactly in (0.6, 0.8], "4-6 weeks" otherwise |
| Dates.WeekStartIsMonday | backend/app/services/progress_service.py:64 | Date minus weekday is a Monday at most six days earlier |
| Dates.WeekStartUnique | backend/app/services/progress_service.py:64 | Two dates share a week start exactly when they fall in the same Monday-to-Sunday week |
| Numbers.MeanBounds | backend/app/services/progress_service.py:51 | The mean of values in [lo, hi] is in [lo, hi] |
| VoiceService.AnalyzeInterviewResponse | backend/app/services/voice_service.py:81-130 | A missing question gives score 0, "Question not found" and two empty lists; otherwise the result is `AnalysisOf` the question's keywords |
| VoiceService.PartitionKeywords | backend/app/services/voice_service.py:106-113 | The loop puts the mentioned keywords in one list and the others in the second, each in keyword order |
| VoiceService.AnalysisPartitionsKeywords | backend/app/services/voice_service.py:109-130 | Each keyword lands in exactly one list, in original order; mentioned means its lower case is a substring of the lower-cased transcript; the score is in [0, 1] |
| VoiceService.KeywordScore | backend/app/services/voice_service.py:116 | The score is 0 with no keywords, in [0, 1] otherwise, and 1 when all are mentioned |
| VoiceService.BandSentence | backend/app/services/voice_service.py:143-148 | The first sentence is "Excellent…" exactly at ≥ 0.8, "Good…" exactly in [0.6, 0.8), "You might want to review…" below 0.6 |
| VoiceService.GenerateFeedback | backend/app/services/voice_service.py:132-158 | The feedback is the parts joined by one space |
| VoiceService.FeedbackStructure | backend/app/services/voice_service.py:141-158 | The band sentence comes first; the "effectively mentioned" sentence is present exactly when some keyword is mentioned and the "Consider including" sentence exactly when some is missing |
| VoiceService.SentencesDiffer | backend/app/services/voice_service.py:143-156 | The three kinds of sentence never coincide, so the presence claims are exact |
| VoiceService.SaveVoiceRecording | backend/app/services/voice_service.py:44-71 | One row with the fresh id, user, question, path, transcript, time and duration is stored, and the fresh id is returned |
| VoiceService.GetUserRecordings | backend/app/services/voice_service.py:160-178 | The question condition and parameter are added only when a question id is given; the query ends with ORDER BY created_at DESC |
| VoiceService.RecordingsAreTheUsers | backend/app/services/voice_service.py:168-178 | Exactly the user's recordings (for the question, when given), newest first |
| JobService.Relevance | backend/app/services/job_service.py:108-112 | Relevance is at most the number of user skills |
| JobService.RelevanceIsMatchCount | backend/app/services/job_service.py:108-112 | Relevance is the number of user skills, duplicates counted, contained case-insensitively in some required skill |
| JobService.RelevanceZeroIffNoMatch | backend/app/services/job_service.py:108-112 | Relevance is 0 exactly when no user skill matches |
| JobService.RelevanceFullIffAllMatch | backend/app/services/job_service.py:108-112 | Relevance equals the number of skills exactly when every skill matches |
| JobService.RelevanceAppend | backend/app/services/job_service.py:109 | The count is additive over the skill list |
| JobService.RankedIsPermutation | backend/app/services/job_service.py:114 | Ranking reorders the jobs without adding or dropping any |
| JobService.RankedByRelevance | backend/app/services/job_service.py:114 | Ranked jobs have non-increasing relevance |
| JobService.RankedIsStable | backend/app/services/job_service.py:114 | Jobs of equal relevance keep their input order |
| JobService.RankIsTheOnlyStableOrder | backend/app/services/job_service.py:114 | Any ordering that is non-increasing and keeps equal-relevance jobs in input order is the ranking |
| JobService.RecommendedJobsShape | backend/app/services/job_service.py:85-105 | No user row gives []; otherwise the first `limit` jobs of the ranked LinkedIn-then-Indeed list, fetched with the user's skills and preferred location |
| JobService.SkillsIn | backend/app/services/job_service.py:120 | The kept skills are exactly the candidates occurring case-insensitively in the description |
| JobService.ExtractSkillsInListOrder | backend/app/services/job_service.py:116-120 | The extracted skills are a subsequence of the ten common skills |
| JobService.ExtractExperienceLevel | backend/app/services/job_service.py:122-128 | "senior" exactly when the description contains senior; "junior" when it contains junior but not senior; otherwise "mid-level" |
| JobService.SaveJobApplication | backend/app/services/job_service.py:130-142 | One row with the fresh id, user, job, status and times; with an unused id it is appended |
| JobService.UpdateApplicationStatus | backend/app/services/job_service.py:144-149 | Only the row with the id gets the new status and update time; other rows and columns are unchanged |
| JobService.ApplicationsAreTheUsers | backend/app/services/job_service.py:151-157 | Exactly the user's applications, newest first |
| JobRoutes.RecommendationsRoute | backend/app/routes/job_routes.py:10-18 | The limit defaults to 10; above 50 the request is refused with 422; otherwise the service result |
| JobRoutes.RecommendationsRouteBound | backend/app/routes/job_routes.py:12 | At most 10 by default and at most `limit` for 0 ≤ limit ≤ 50; a negative limit drops that many jobs from the end |
| JobRoutes.ApplyToJob | backend/app/routes/job_routes.py:20-33 | The application is saved with status "applied" |
| JobRoutes.UpdateApplicationStatusRoute | backend/app/routes/job_routes.py:44-54 | The status update is applied to the row with that id, whoever owns it |
| JobRoutes.SearchKeywordFallback | backend/app/routes/job_routes.py:66-72 | Given keywords are used as they are; otherwise the user's skills, or [] with no user row |
| JobRoutes.SearchJobsResult | backend/app/routes/job_routes.py:74-87 | LinkedIn jobs then Indeed jobs, fetched with location or ""; with a level, exactly the jobs whose level matches case-insensitively, in order |
| InterviewRoutes.CreateQuestion | backend/app/routes/interview_routes.py:11-36 | The question is stored and returned unchanged |
| InterviewRoutes.BuildQuestionQuery | backend/app/routes/interview_routes.py:48-68 | Conditions and parameters are the two columns of one clause per given filter; the query has WHERE with the conditions joined by AND exactly when there is one, then the LIMIT |
| InterviewRoutes.AddClause | backend/app/routes/interview_routes.py:52-63 | One `if filter:` step appends a condition and its parameter exactly when the filter is non-empty |
| InterviewRoutes.RenderQuery | backend/app/routes/interview_routes.py:65-68 | WHERE appears only with conditions; LIMIT is always appended |
| InterviewRoutes.ClausePositions | backend/app/routes/interview_routes.py:52-63 | Each given filter's clause sits at its position in the order category, difficulty, tag, company, and there are no others |
| InterviewRoutes.ClausesOrdered | backend/app/routes/interview_routes.py:52-66 | One clause per given filter, in strictly increasing filter order; none exactly when no filter is given |
| InterviewRoutes.ClausesPaired | backend/app/routes/interview_routes.py:52-63 | A condition is present exactly when its filter is given, and its parameter is that filter's value |
| InterviewRoutes.GetQuestions | backend/app/routes/interview_routes.py:38-71 | Returns `QuestionsQuery`; for a valid limit, the query text built from the given filters and one parameter per condition, each its filter's value; for an invalid limit, no query text and no parameters |
| InterviewRoutes.QuestionsQueryRows | backend/app/routes/interview_routes.py:44-71 | Valid exactly for limits in 0..50 (default 10); the result is the first `limit` rows meeting every given filter, a subsequence of the table |
| InterviewRoutes.SubmitAnswer | backend/app/routes/interview_routes.py:73-131 | A missing question gives 404 with no write; otherwise the answer is stored under the current user and the progress upsert is applied |
| InterviewRoutes.ProgressAfterSubmitEffect | backend/app/routes/interview_routes.py:106-129 | An existing row gets attempts+1 and the answer's time; otherwise one new in-progress row with one attempt; one row per (user, question) afterwards |
| InterviewRoutes.LikeQuestion | backend/app/routes/interview_routes.py:144-154 | `likes = likes + 1` on the row with that id |
| InterviewRoutes.LikeAddsExactlyOne | backend/app/routes/interview_routes.py:150-153 | Only the liked question changes, by one like; total likes grow by one when it exists |
| InterviewRoutes.LikesAddUp | backend/app/routes/interview_routes.py:150-153 | An increment over the matching rows raises total likes by the number of matches |
| UserRoutes.RegisterUser | backend/app/routes/user_routes.py:17-56 | A taken email gives 400 with no write; otherwise one row with the hashed password, and the public view of it is returned |
| UserRoutes.RegistrationKeepsEmailsUnique | backend/app/routes/user_routes.py:22-54 | Since taken emails are refused, emails stay unique |
| UserRoutes.LoginOutcome | backend/app/routes/user_routes.py:58-77 | 401 when no row has the username or the password does not verify against the first such row; otherwise a bearer token for the username with a 30-minute expiry |
| UserRoutes.UpdateUser | backend/app/routes/user_routes.py:83-102 | Only the current user's email, username and full name change; the response is the current user overlaid with them |
| UserRoutes.UpdateSkills | backend/app/routes/user_routes.py:104-114 | The current user's skills are replaced wholesale; nothing else changes |
| UserRoutes.GetProgressIsStoredMap | backend/app/routes/user_routes.py:116-123 | The stored progress map, or {} with no row |
| MediaRoutes.Extension | backend/app/routes/media_routes.py:33 | The extension is a suffix of the name that starts with '.' and has no other '.' or '/'; empty when the name has no '.' |
| MediaRoutes.LastIndex | backend/app/routes/media_routes.py:33 | The last position of a character, or -1 |
| MediaRoutes.ObjectKeyDetermines | backend/app/routes/media_routes.py:41 | The key "uploads/user/filename" determines user and filename when ids have no '/' |
| MediaRoutes.UploadFile | backend/app/routes/media_routes.py:23-67 | A failed upload gives 500 with no row; a successful one stores one metadata row and returns the unique filename |
| MediaRoutes.ListFiles | backend/app/routes/media_routes.py:69-87 | The query gets each optional condition exactly when its filter is given; the rows are those of the current user meeting the filters |
| MediaRoutes.ListedFilesAreTheUsers | backend/app/routes/media_routes.py:76-87 | Exactly the user's files meeting every given filter, in table order |
| MediaRoutes.GetFile | backend/app/routes/media_routes.py:89-115 | 404 exactly when no row has both the id and the current user; for the first such row, a presigned URL of its key with a 3600-second expiry gives Ok(url), and a presign failure gives 500 with its message |
| MediaRoutes.DeleteFile | backend/app/routes/media_routes.py:117-146 | 404 with no owned row; a storage failure gives 500 and keeps the row; success deletes the rows with that id |
| MediaRoutes.DeleteRemovesTheOwnedRow | backend/app/routes/media_routes.py:140-144 | A successful delete removes exactly the owned file and leaves no row with that id |
| Schema.FindUser | backend/app/routes/user_routes.py:119-122 | A lookup by id finds a stored row with that id exactly when one exists |
| Seqs.DeleteWhereSplits | backend/app/routes/media_routes.py:141-144 | A delete and the rows it selects split the table exactly |

## Left out

- Text.Lower: folds only ASCII letters. Python's `str.lower` also folds other scripts.
- `transcribe_audio` and `_get_audio_duration` call a speech service and an audio library. The transcript and the duration are parameters.
- `fetch_linkedin_jobs` and `fetch_indeed_jobs` make HTTP calls and map JSON. They are function parameters returning job lists.
- The S3 client is reduced to success or failure outcomes with an error message. Its bucket name is not modelled.
- Password hashing, password verification, token creation and `get_current_user` are in a module that is not part of this model. They are parameters; the current user is an id.
- `read_users_me` only echoes the current user.
- `get_user_progress` (interview_routes.py:133-142) is the same filter as `ProgressService.ProgressOf`. The response model's refusal of NULL `mastery_level` values is not modelled.
- Floating-point rounding: scores, means and mastery are exact reals.
- The Cassandra result set is iterated three times in `get_user_statistics`: by the weekly pass, the category pass and the counting loop. A driver result set yields its rows only once, so only the first of those passes would see rows. The model gives every pass all of the user's answers.
- The pydantic defaults `uuid4()` and `datetime.now()` (models/user.py:15-17, models/question.py:7, 14, 21, 28) are evaluated once, when the class is defined. In the source, every registration therefore gets the same `id` and `created_at`, and a second registration upserts over the first user's row. Ids and times are parameters here. `UserRoutes.RegisterUser`'s contract (a `PutRow` on the id) covers a reused id, so passing the same `freshId` twice reproduces the overwrite.
- Concurrency of the async handlers, including concurrent like increments.
- Validation of email addresses (`EmailStr`) and of request bodies.
- A Cassandra `UPDATE` of a missing key would create the row. The model updates only existing rows, because the statements used (`likes = likes + 1`, `ANY(tags)`, `LEFT JOIN`) are relational.
- Rows with equal `ORDER BY` keys keep table order. The database guarantees no order for them.
- A NULL `preferences`, `skills` or `keywords` column is modelled as an empty map or list.
- InterviewRoutes.QuestionsQuery: follows the relational reading of `LIMIT`, like the `ANY(tags)` and `LEFT JOIN` statements elsewhere. A negative `limit` passes the route's `le=50` check and fails with a database error (500, "LIMIT must not be negative"). `LIMIT 0` returns no rows. CQL would also refuse `LIMIT 0`, and the model does not capture that.
- JobRoutes.RecommendationsRoute: a negative `limit` is passed through. Python's `[:limit]` then drops jobs from the end, as `RecommendationsRouteBound` states.
- JobRoutes.UpdateApplicationStatusRoute: the route does not check that the application belongs to the current user, and the model does not either.
- UserRoutes.UpdateUser: the route does not check that the new email is free, so the model does not keep emails unique there.
- MediaRoutes.Extension: follows the rule of posix `os.path.splitext`: the suffix from the last '.' after the last '/', when a character other than '.' precedes it in the last path component. The Windows separators of `ntpath` are not modelled.
- User-row lookups take the first matching row. A Cassandra query on a non-key column such as `email` or `username` needs an index, and that is not modelled.
