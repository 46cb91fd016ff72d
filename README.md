# Auto-apply pipeline of the Job_Board application, in Dafny

The Job_Board application applies to job listings for its premium users on
their behalf. A scheduled batch job (`AutoApplyAgentJob::handle`) selects the
users with a premium subscription row. For each user whose subscription is
active, it calls `AutoApplyService::processForUser`, which does the following:
- checks the auto-apply preference and the resume;
- selects matching open jobs (`getFilteredJobs`);
- asks `AIServices::generateCoverLetter` for a cover letter per job;
- records a pending application and an audit log entry for every outcome.

This project models those three pieces and proves what they write.

The project is split into six modules:
- `Php` (`php.dfy`): the PHP and SQL string semantics the code relies on. These are `empty()`, `strtolower`/`LOWER`, `LIKE '%…%'`, `str_replace`, `implode` and integer interpolation, plus order-keeping subsequences.
- `Records` (`records.dfy`): the rows the pipeline reads and writes (jobs, job types, users with preference and profile, applications, `auto_apply_logs`). It also holds the outcome of a cover-letter call: a string, a thrown `Exception`, or a thrown `Error`.
- `JobMatcher` (`matcher.dfy`): `getFilteredJobs` as a pure selection over the `jobs_listing` rows. This covers the list normaliser, the salary test and the three list filters. It is proved equal to a filter-by-filter reference predicate.
- `AIServices` (`ai_services.dfy`): `defaultPrompt` and `generateCoverLetter`. The latter is modelled twice: as written, and with the template reaching the prompt (see Findings).
- `AutoApply` (`auto_apply.dfy`): `processForUser` as a `Store` class whose method appends to `logs` and `applications`. It is proved against `UserEffect`, a function of the tables it starts from, and the accounting of the job loop is proved about that function.
- `AgentJob` (`agent_job.dfy`): `handle` as a method over the same store. It is proved against `BatchRun`, a left fold over the fetched users.

The cover-letter generator and the text-generation gateway are parameters (deterministic functions). JSON decoding is a parameter as well. `processForUser` and the batch are proved for any generator. `AIServices.ServiceGenerator` is the generator as written; `AIServices.IntendedServiceGenerator` is the corrected one.

On four points the code does something other than its tests, its comments or its own code suggest; the model follows the code:
- **Salary.** The salary test is containment of the job's `salary_min` in the preference's `[salary_min, salary_max]` (`whereBetween`), not the range overlap that tests/Unit/Services/AutoApplyServiceTest.php:626 names. A null preference bound excludes every row, so a preference without salary bounds selects nothing, not every open job. tests/Feature/Jobs/AutoApplyAgentJobTest.php:17-56 expects a match from such a preference (the helper at tests/Pest.php:96-106 leaves both bounds null). A job whose own `salary_min` is null is excluded, and only that job.
- **Summary log.** The `completed` summary is written only when at least one job succeeded. Its "No jobs applied successfully" reason cannot be reached.
- **Batch failures.** The batch does not isolate failures per user. An `Error` is not caught by `catch (Exception $e)`, so it escapes `processForUser` and ends the batch. Such an `Error` can be thrown inside the gateway SDK call, or be a `TypeError` from a `GeminiClientInterface` implementation that returns null.
- **Prompt.** `generateCoverLetter` never calls `defaultPrompt` and does not check the profile, although tests/Unit/Services/AIServicesTest.php:20-29 expects an exception for a user without one.

## Model

| member | source | states |
|---|---|---|
| JobMatcher.DropFalsy | app/Services/AutoApplyService.php:180 | every entry kept is neither "" nor "0", every such value of the input is kept, and the kept entries are a subsequence of the input (original order) |
| JobMatcher.Normalise | app/Services/AutoApplyService.php:176-180 | no normalised keyword, location or type name is falsy |
| JobMatcher.NormaliseShapes | app/Services/AutoApplyService.php:176-180 | null gives []; an array gives its non-falsy items; a decodable JSON string gives its non-falsy items; an undecodable string gives itself as a one-element list, unless it is falsy |
| JobMatcher.ResolveJobTypeIds | app/Services/AutoApplyService.php:208-210 | an id is resolved iff some job type with that id has a lower-cased name among the lower-cased names |
| JobMatcher.LowerKeepsTruthy | app/Services/AutoApplyService.php:185-186 | a keyword that survived `array_filter` is still non-empty after `strtolower`, so the inner `! empty($title)` check never drops one |
| JobMatcher.TitleTestAgrees | app/Services/AutoApplyService.php:182-191 | the OR of `LOWER(title) LIKE %kw%` clauses holds iff some keyword occurs, case-insensitively, in the title (vacuous for no keywords) |
| JobMatcher.JobTypeTestAgrees | app/Services/AutoApplyService.php:207-216 | resolving names to ids, then `whereIn` or `0 = 1`, holds iff the job's type has one of the listed names (vacuous for no names) |
| JobMatcher.QueryKeepsSelected | app/Services/AutoApplyService.php:167-216 | the query builder's conjunction equals the filter-by-filter reference `Selected` |
| JobMatcher.FilteredJobs | app/Services/AutoApplyService.php:165-223 | a job is returned iff it is a listing that is open, not applied to by the user, whose salary lies within the bounds, and that passes every non-empty title, location and job-type filter; rows keep table order |
| JobMatcher.EmptyListFiltersAreVacuous | app/Services/AutoApplyService.php:176-217 | with all three normalised lists empty, exactly the open, not-applied, salary-contained listings are returned |
| JobMatcher.AppliedJobExcluded | app/Services/AutoApplyService.php:169-171 | a job the user has an application for is never returned |
| JobMatcher.UnresolvedJobTypesSelectNothing | app/Services/AutoApplyService.php:212-216 | a non-empty job-type list that resolves to no id selects nothing (fail-closed) |
| JobMatcher.NullSalaryBoundSelectsNothing | app/Services/AutoApplyService.php:173 | a null `salary_min` or `salary_max` in the preference selects nothing |
| JobMatcher.TitleMatchIgnoresKeywordCase | app/Services/AutoApplyService.php:185-187 | lower-casing the keywords beforehand does not change which titles match |
| JobMatcher.MoreApplicationsSelectFewer | app/Services/AutoApplyService.php:169-171 | adding application rows can only remove jobs from the result |
| JobMatcher.OtherUsersApplicationsIgnored | app/Services/AutoApplyService.php:170 | applications by other users leave a user's result unchanged |
| JobMatcher.FilteredJobsIgnoresTemplate | app/Services/AutoApplyService.php:165-223 | the stored cover-letter template plays no part in matching |
| Php.ImplodeContainsPart | app/Services/AIServices.php:41 | every skill appears in the `implode(', ', …)` text |
| Php.ReplaceAbsent | app/Services/AIServices.php:22-23 | `str_replace` leaves a subject without the search string unchanged |
| Php.NatToStringRoundTrip | app/Services/AutoApplyService.php:149 | the count interpolated into the summary reason reads back as that count |
| AIServices.DefaultPrompt | app/Services/AIServices.php:34-57 | fails with 'User profile not found' iff the user has no profile; otherwise the prompt contains the title, the description, the user's name, the skills text and the bio text |
| AIServices.SkillsTextCases | app/Services/AIServices.php:41-42 | no skills gives 'Not specified'; otherwise every skill appears in the skills text |
| AIServices.BasePromptMentions | app/Services/AIServices.php:17-20 | the base prompt contains the job title, the location, the applicant's name and the resume path (or 'Not provided') |
| AIServices.TitleIsRewrittenByLocationPass | app/Services/AIServices.php:21-24 | `{location}` is substituted after `{job_title}`, so a title containing `{location}` is rewritten too |
| AIServices.TemplateWithoutPlaceholdersUnchanged | app/Services/AIServices.php:21-24 | a template with neither placeholder is sent verbatim |
| AIServices.CoverLetterPromptShape | app/Services/AIServices.php:17-29 | a set custom prompt followed by a blank line is prefixed to the prompt the other options give; a set template without a custom prompt gives the same prompt for every user (the base prompt is replaced entirely); without a template the prompt names the job title and the applicant, custom prompt or not |
| AIServices.GenerateCoverLetterSendsBasePrompt | app/Services/AIServices.php:15-32 | as written, whatever the `?string` argument is, the gateway receives the base prompt and its reply is returned unchanged; a user without a profile still reaches the gateway |
| AIServices.ServiceGenerator | app/Services/AIServices.php:15-31 | the generator `processForUser` calls sends, for every job, user and template, the base prompt of that job and user |
| AIServices.IntendedPromptUsesTemplate | app/Services/AIServices.php:21-24 | with the template passed as the `cover_letter_template` option, a non-empty template becomes the prompt after substitution; no template leaves the base prompt |
| AIServices.IntendedServiceGenerator | app/Services/AIServices.php:21-24 | the corrected generator sends the substituted template when a non-empty one is handed over, and the base prompt when none is |
| AIServices.TemplateIgnoredAsWritten | app/Services/AIServices.php:15-21 | for the template "Dear hiring manager", the prompt sent as written differs from the intended one |
| AutoApply.UncaughtIsFinal | app/Services/AutoApplyService.php:86-141 | once an `Error` escapes the job loop, later jobs change nothing |
| AutoApply.RunJobsLogs | app/Services/AutoApplyService.php:86-140 | log k of the loop belongs to the user and to matched job k, and is `success` or `failed`; without an escaped `Error` every matched job gets one (which status and reason: `JobOutcome`) |
| AutoApply.RunJobsSuccessApplied | app/Services/AutoApplyService.php:113-127 | a `success` log for job k comes with the user's application for job k |
| AutoApply.StepBalanced | app/Services/AutoApplyService.php:92-140 | one job keeps applications, returned ids and `success` logs equally many, and keeps every log `success` or `failed` |
| AutoApply.RunJobsCounts | app/Services/AutoApplyService.php:84-141 | new applications = returned ids = `success` logs, and `success` + `failed` = logs written by the loop |
| AutoApply.RunJobsApplicationShape | app/Services/AutoApplyService.php:113-119 | application k is a `pending` one for the user, with the profile's resume path, a non-empty letter, and the k-th returned job id (which letter: `JobOutcome`, `FinishedRunAppliesAccepted`) |
| AutoApply.RunJobsAppliedInOrder | app/Services/AutoApplyService.php:129 | the returned ids are a subsequence of the matched ids |
| AutoApply.RunJobsExtends | app/Services/AutoApplyService.php:86-141 | the loop's logs, applications and ids after the first k jobs are prefixes of those after all jobs |
| AutoApply.JobOutcome | app/Services/AutoApplyService.php:92-140 | for matched job k reached without an earlier `Error`: an `Exception` gives log k `failed` with its message; an empty letter gives log k `failed` with 'Cover letter generation failed or returned empty.'; a non-empty letter gives log k `success`, the next application `pending` with that very letter and the resume path, and the next returned id; an `Error` ends the loop with no log for job k |
| AutoApply.StepKeepsAccepted | app/Services/AutoApplyService.php:107-129 | a job whose reply is not an `Error` appends its application and id iff the reply is a non-empty letter, the application storing that letter |
| AutoApply.AcceptedJobs | app/Services/AutoApplyService.php:107-129 | reference: exactly the matched jobs whose reply is a returned non-empty letter, as a subsequence of the matches |
| AutoApply.RunJobsStopsOnlyOnError | app/Services/AutoApplyService.php:92-94 | the loop stops early iff some matched job's generator call throws an `Error`, the one throwable `catch (Exception $e)` lets through |
| AutoApply.FinishedRunLogStatuses | app/Services/AutoApplyService.php:86-141 | a loop that ran to the end writes one log per matched job, `success` iff that job's reply is a non-empty letter |
| AutoApply.FinishedRunAppliesAccepted | app/Services/AutoApplyService.php:113-129 | a loop that ran to the end returns the ids of exactly the accepted jobs in order, and application i stores the reply of accepted job i |
| AutoApply.FinishedRunPerJob | app/Services/AutoApplyService.php:84-155 | in a finished run, matched job k's log is `success` iff its reply is a non-empty letter, and the new applications store, in order, the replies of those jobs |
| AutoApply.SkippedUserWritesNothing | app/Services/AutoApplyService.php:30-41 | not subscribed, no preference, or auto-apply disabled: no log, no application, returns null |
| AutoApply.MissingResumeWritesOneFailure | app/Services/AutoApplyService.php:49-59 | no profile or an empty resume path: exactly one user-level `failed` log, whether or not jobs match |
| AutoApply.NoMatchWritesOneNoJobsFound | app/Services/AutoApplyService.php:74-82 | no matching job: exactly one `no_jobs_found` log, no application, no `completed` log |
| AutoApply.FinishedRunAccounting | app/Services/AutoApplyService.php:84-155 | a finished run returns the ids of the matched jobs whose reply is a non-empty letter, in matched order; returned ids = new applications = `success` logs; `success` + `failed` = matches; one `completed` log stating the count, last, iff some job succeeded |
| AutoApply.SummaryAccounting | app/Services/AutoApplyService.php:143-152 | after a loop whose counts are balanced, the summary leaves the `success` and `failed` counts as they were and adds one `completed` log stating the count, last, iff some job succeeded |
| AutoApply.NoneAppliedReasonUnreachable | app/Services/AutoApplyService.php:144-152 | no `completed` log ever carries 'No jobs applied successfully' |
| AutoApply.SecondRunFindsNothing | app/Services/AutoApplyService.php:24-156 | after a run in which no job failed, running the user again writes one `no_jobs_found` log and no duplicate application |
| AutoApply.UserEffectRowsBelongToUser | app/Services/AutoApplyService.php:24-156 | every log and application written carries the processed user's id |
| AutoApply.UserEffectIgnoresOthersApplications | app/Services/AutoApplyService.php:45 | other users' applications do not change what is done for a user |
| AutoApply.RunJobsSameReplies | app/Services/AutoApplyService.php:86-141 | the loop depends on the generator only through its replies |
| AutoApply.CoverLetterTemplateHasNoEffect | app/Services/AutoApplyService.php:93 | with `generateCoverLetter` as written, changing the preference's `cover_letter_template` changes nothing that is written or returned |
| AutoApply.Store.ApplyToMatches | app/Services/AutoApplyService.php:84-141 | the loop appends exactly the rows of `RunJobs` and returns its ids, or stops at the first `Error` |
| AutoApply.Store.ProcessForUser | app/Services/AutoApplyService.php:24-156 | appends exactly the rows of `UserEffect` to `logs` and `applications` and returns its outcome; the listings and job types are untouched |
| AgentJob.PremiumCandidates | app/Jobs/AutoApplyAgentJob.php:28-30 | exactly the users with a premium subscription row, in table order |
| AgentJob.BatchCrashIsFinal | app/Jobs/AutoApplyAgentJob.php:38-53 | after an escaped `Error`, no later user is processed |
| AgentJob.CrashAbortsLaterUsers | app/Jobs/AutoApplyAgentJob.php:38-53 | a crash in the first part of the batch leaves the rest unprocessed |
| AgentJob.UnsubscribedUserSkipped | app/Jobs/AutoApplyAgentJob.php:42-46 | a user without an active premium subscription changes nothing |
| AgentJob.BatchProcessesSubscribedInOrder | app/Jobs/AutoApplyAgentJob.php:38-53 | the processed ids are a subsequence of the fetched users' ids, each that of a user with an active premium subscription |
| AgentJob.BatchRowsOfProcessed | app/Jobs/AutoApplyAgentJob.php:38-53 | every log and application the batch writes belongs to a processed user |
| AgentJob.CompleteBatchProcessesSubscribed | app/Jobs/AutoApplyAgentJob.php:38-53 | a batch that no `Error` ended processed exactly the subscribed users, each once, in order |
| AgentJob.BatchMatchesSeparateRuns | app/Jobs/AutoApplyAgentJob.php:38-53 | with unique user ids, the batch writes what processing each user on its own against the initial tables would |
| AgentJob.NonPremiumUsersGetNoRows | app/Jobs/AutoApplyAgentJob.php:28-46 | a user lacking a premium subscription row or an active premium subscription gets no log and no application |
| AgentJob.ServeUser | app/Jobs/AutoApplyAgentJob.php:39-52 | one pass of the loop appends exactly the rows `BatchRun` adds for that user and reports an escaped `Error` |
| AgentJob.Handle | app/Jobs/AutoApplyAgentJob.php:26-54 | appends exactly the rows of `BatchRun` over the premium candidates and passes on the `Error` that ended it |

## Left out

- Database and ORM mechanics are modelled as sequences of rows:
  - Eloquent queries, eager loading and the user reload at app/Services/AutoApplyService.php:26 (the reloaded user is taken to be the one passed in);
  - `Application::factory()->create`, modelled as an append of the listed fields;
  - result order, which is taken to be table order.
- Database writes always succeed. A failing insert at app/Services/AutoApplyService.php:96, 113 or 123 would be caught by the outer `catch` and logged as `failed`. A failing insert at line 51, 75, 133 (inside the outer `catch`) or 145 is outside every `try`: it would escape `processForUser` and, since `handle` has no `try`, end the batch. Neither path is modelled.
- SQL collation, and `%`/`_` inside keywords, are not modelled. `LOWER`/`strtolower` are ASCII lower-casing; the title test is a substring test and the location test is string equality.
- Decimal salary columns are integers.
- JSON decoding is a parameter returning a list of strings or nothing. JSON that decodes to a scalar, or to a list holding non-strings, is not modelled.
- `subscribed('premium')` (Stripe and Cashier) is a boolean per user. The subscription rows are represented only by their `type`.
- The text-generation gateway (`GeminiClientWrapper`, a network call) is a deterministic function from the prompt to a returned string or a thrown `Exception`/`Error`. The shipped wrapper turns a null text into an empty string (app/Services/GeminiClientWrapper.php:14). The loop receives that as an empty letter and logs it `failed`. An implementation of the interface that returned null would instead raise a `TypeError`, which is a thrown `Error` here.
- `floatval`/`number_format` of the salary is floating point; the formatted salary is an opaque string on the job.
- `Log::info`/`Log::error` diagnostics, the queue (`ShouldQueue`) and the schedule are not modelled.
- Controllers, middleware, views, migrations, factories and notification jobs are not part of this model.

## Findings

| source | as written | input that shows it | evidently intended | confidence | as-written member | corrected member |
|---|---|---|---|---|---|---|
| app/Services/AIServices.php:15-29 | `generateCoverLetter` declares its third argument `?string` and reads `$preferences['cover_letter_template']` and `$preferences['custom_prompt']` from it. app/Services/AutoApplyService.php:93 passes the template string. On a string (or null), both offsets read as absent under `??` and `empty()`, so the base prompt is always sent and the stored template is ignored | a preference whose `cover_letter_template` is "Dear hiring manager" | the template (with `{job_title}` and `{location}` substituted) is the prompt | not executed | AIServices.TemplateIgnoredAsWritten | AIServices.IntendedServiceGenerator |
