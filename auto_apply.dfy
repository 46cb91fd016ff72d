/** `AutoApplyService::processForUser`: the per-user state machine that
    checks the subscription, the preference and the resume, matches jobs,
    and for each match generates a cover letter and records an application
    and an audit log, continuing past per-job failures. */
module AutoApply {
  import opened Php
  import opened Records
  import opened JobMatcher
  import opened AIServices

  const ProfileOrResumeMissing := "User profile or resume not found"
  const NoMatchingJobs := "No jobs matching user preferences"
  const EmptyCoverLetter := "Cover letter generation failed or returned empty."
  const NoneApplied := "No jobs applied successfully"
  const Pending := "pending"

  /** What `processForUser` gives its caller: its return value (null on the
      early returns, the applied job ids at the end), or a PHP `Error` that
      neither `catch (Exception $e)` stops. */
  datatype Outcome = Done(applied: Option<seq<nat>>) | Crashed(error: Throwable)

  /** What one pass of the loop at app/Services/AutoApplyService.php:86-141 does for one job. */
  datatype JobStep =
    | Applied(application: Application, log: LogEntry)
    | JobFailed(log: LogEntry)
    | Uncaught(error: Throwable)

  /** One job: a thrown `Exception` is logged with its message; an empty
      letter is logged with the fixed message thrown at app/Services/AutoApplyService.php:108 and caught at
      line 131; otherwise a pending application and a success log are written.
      An `Error` is caught by neither handler. */
  function Attempt(job: Job, userId: nat, resume: string, reply: Reply): JobStep {
    match reply
    case Raised(Exception(m)) => JobFailed(LogEntry(userId, Some(job.id), Failed, Some(m)))
    case Raised(Error(m)) => Uncaught(Error(m))
    case Returned(letter) =>
      if Falsy(letter) then JobFailed(LogEntry(userId, Some(job.id), Failed, Some(EmptyCoverLetter)))
      else Applied(Application(job.id, userId, resume, letter, Pending), LogEntry(userId, Some(job.id), Success, None))
  }

  /** The rows written and ids collected by the loop so far, and the `Error`
      that ended it, if one did. */
  datatype Progress = Progress(
    logs: seq<LogEntry>,
    applications: seq<Application>,
    applied: seq<nat>,
    uncaught: Option<Throwable>)

  /** The loop state after one more job. */
  function Step(before: Progress, job: Job, userId: nat, resume: string, reply: Reply): Progress {
    match Attempt(job, userId, resume, reply)
    case Applied(app, log) =>
      Progress(before.logs + [log], before.applications + [app], before.applied + [job.id], None)
    case JobFailed(log) => before.(logs := before.logs + [log])
    case Uncaught(e) => before.(uncaught := Some(e))
  }

  /** The loop over the matched jobs, in order, stopping at an uncaught `Error`. */
  function RunJobs(jobs: seq<Job>, user: User, resume: string, template: Option<string>,
                   generate: Generator): Progress
    decreases |jobs|
  {
    if jobs == [] then Progress([], [], [], None)
    else
      var before := RunJobs(jobs[..|jobs| - 1], user, resume, template, generate);
      var job := jobs[|jobs| - 1];
      if before.uncaught.Some? then before
      else Step(before, job, user.id, resume, generate(job, user, template))
  }

  /** app/Services/AutoApplyService.php:144-152: a `completed` entry only when some job succeeded; the
      ternary's second reason sits behind that guard. */
  function SummaryLogs(userId: nat, applied: seq<nat>): seq<LogEntry> {
    if applied != [] then
      [LogEntry(userId, None, Completed,
                Some(if |applied| > 0
                     then "Auto-apply completed successfully for " + NatToString(|applied|) + " jobs"
                     else NoneApplied))]
    else []
  }

  /** `! $profile || ! $profile->resume_path`. */
  predicate ResumeMissing(profile: Option<Profile>) {
    profile.None? || profile.value.resumePath.None? || Falsy(profile.value.resumePath.value)
  }

  /** The rows `processForUser` appends to `auto_apply_logs` and
      `applications`, and what it gives back. */
  datatype Effect = Effect(logs: seq<LogEntry>, applications: seq<Application>, outcome: Outcome)

  /** `processForUser($user)` as a function of the tables it starts from. */
  function UserEffect(user: User, db: Tables, parse: JsonListParser, generate: Generator): Effect {
    if !user.subscribedPremium then Effect([], [], Done(None))
    else if user.preference.None? || !user.preference.value.autoApplyEnabled then Effect([], [], Done(None))
    else
      var pref := user.preference.value;
      var matches := FilteredJobs(pref, Some(user.id), db, parse);
      if ResumeMissing(user.profile) then
        Effect([LogEntry(user.id, None, Failed, Some(ProfileOrResumeMissing))], [], Done(None))
      else if matches == [] then
        Effect([LogEntry(user.id, None, NoJobsFound, Some(NoMatchingJobs))], [], Done(None))
      else
        var p := RunJobs(matches, user, user.profile.value.resumePath.value, pref.coverLetterTemplate, generate);
        if p.uncaught.Some? then Effect(p.logs, p.applications, Crashed(p.uncaught.value))
        else Effect(p.logs + SummaryLogs(user.id, p.applied), p.applications, Done(Some(p.applied)))
  }

  /** Once an `Error` has escaped, later jobs change nothing. */
  lemma {:induction false} UncaughtIsFinal(jobs: seq<Job>, k: nat, user: User, resume: string,
                                           template: Option<string>, generate: Generator)
    requires k <= |jobs|
    requires RunJobs(jobs[..k], user, resume, template, generate).uncaught.Some?
    ensures RunJobs(jobs, user, resume, template, generate) == RunJobs(jobs[..k], user, resume, template, generate)
    decreases |jobs|
  {
    if k < |jobs| {
      var init := jobs[..|jobs| - 1];
      assert init[..k] == jobs[..k];
      UncaughtIsFinal(init, k, user, resume, template, generate);
    } else {
      assert jobs[..k] == jobs;
    }
  }

  /** One more job: the loop state after job i is the state before it
      extended by that job's attempt. */
  lemma RunJobsStep(jobs: seq<Job>, i: nat, user: User, resume: string,
                    template: Option<string>, generate: Generator)
    requires i < |jobs|
    requires RunJobs(jobs[..i], user, resume, template, generate).uncaught.None?
    ensures RunJobs(jobs[..i + 1], user, resume, template, generate)
         == Step(RunJobs(jobs[..i], user, resume, template, generate), jobs[i], user.id, resume,
                 generate(jobs[i], user, template))
  {
    assert jobs[..i + 1][..i] == jobs[..i];
  }

  lemma CountStatusSnoc(logs: seq<LogEntry>, log: LogEntry, s: LogStatus)
    ensures CountStatus(logs + [log], s) == CountStatus(logs, s) + (if log.status == s then 1 else 0)
  {
    assert (logs + [log])[..|logs|] == logs;
  }

  /** A status that is never counted does not occur. */
  lemma {:induction false} ZeroCountMeansAbsent(logs: seq<LogEntry>, s: LogStatus)
    requires CountStatus(logs, s) == 0
    ensures forall k :: 0 <= k < |logs| ==> logs[k].status != s
    decreases |logs|
  {
    if logs != [] {
      ZeroCountMeansAbsent(logs[..|logs| - 1], s);
    }
  }

  /** Log k of the job loop is the one `success` or `failed` entry for
      matched job k; every job reached gets one, and all of them are reached
      unless an `Error` escaped. */
  lemma {:induction false} RunJobsLogs(jobs: seq<Job>, user: User, resume: string,
                                       template: Option<string>, generate: Generator)
    ensures var p := RunJobs(jobs, user, resume, template, generate);
      && |p.logs| <= |jobs|
      && (p.uncaught.None? ==> |p.logs| == |jobs|)
      && (forall k :: 0 <= k < |p.logs| ==>
            && p.logs[k].userId == user.id
            && p.logs[k].jobId == Some(jobs[k].id)
            && (p.logs[k].status == Success || p.logs[k].status == Failed))
    decreases |jobs|
  {
    if jobs != [] {
      RunJobsLogs(jobs[..|jobs| - 1], user, resume, template, generate);
    }
  }

  /** A `success` log for matched job k comes with that user's application
      for job k. */
  lemma {:induction false} RunJobsSuccessApplied(jobs: seq<Job>, user: User, resume: string,
                                                 template: Option<string>, generate: Generator, k: nat)
    requires k < |jobs|
    requires k < |RunJobs(jobs, user, resume, template, generate).logs|
    requires RunJobs(jobs, user, resume, template, generate).logs[k].status == Success
    ensures exists a :: a in RunJobs(jobs, user, resume, template, generate).applications
                     && a.jobId == jobs[k].id && a.userId == user.id
    decreases |jobs|
  {
    var init := jobs[..|jobs| - 1];
    var before := RunJobs(init, user, resume, template, generate);
    RunJobsLogs(init, user, resume, template, generate);
    if k < |before.logs| {
      RunJobsSuccessApplied(init, user, resume, template, generate, k);
      var a :| a in before.applications && a.jobId == init[k].id && a.userId == user.id;
      assert a in RunJobs(jobs, user, resume, template, generate).applications;
    } else {
      var job := jobs[|jobs| - 1];
      var step := Attempt(job, user.id, resume, generate(job, user, template));
      assert step.Applied?;
      assert step.application in before.applications + [step.application];
    }
  }

  /** The applications, the collected ids and the `success` logs are equally
      many, and every log of the loop is a `success` or a `failed` one. */
  predicate Balanced(p: Progress) {
    && |p.applications| == |p.applied| == CountStatus(p.logs, Success)
    && CountStatus(p.logs, Success) + CountStatus(p.logs, Failed) == |p.logs|
  }

  lemma StepBalanced(before: Progress, job: Job, userId: nat, resume: string, reply: Reply)
    requires Balanced(before)
    ensures Balanced(Step(before, job, userId, resume, reply))
  {
    var after := Step(before, job, userId, resume, reply);
    var step := Attempt(job, userId, resume, reply);
    if step.Uncaught? {
      assert after.logs == before.logs && after.applications == before.applications;
    } else {
      var log := step.log;
      assert after.logs == before.logs + [log];
      CountStatusSnoc(before.logs, log, Success);
      CountStatusSnoc(before.logs, log, Failed);
    }
  }

  lemma {:induction false} RunJobsCounts(jobs: seq<Job>, user: User, resume: string,
                                         template: Option<string>, generate: Generator)
    ensures Balanced(RunJobs(jobs, user, resume, template, generate))
    decreases |jobs|
  {
    if jobs != [] {
      var init := jobs[..|jobs| - 1];
      var job := jobs[|jobs| - 1];
      RunJobsCounts(init, user, resume, template, generate);
      StepBalanced(RunJobs(init, user, resume, template, generate), job, user.id, resume,
                   generate(job, user, template));
    }
  }

  /** Application k is a pending one for this user, with this resume, a
      non-empty letter, and the k-th collected job id. */
  lemma {:induction false} RunJobsApplicationShape(jobs: seq<Job>, user: User, resume: string,
                                                   template: Option<string>, generate: Generator)
    ensures var p := RunJobs(jobs, user, resume, template, generate);
      && |p.applications| == |p.applied|
      && forall k :: 0 <= k < |p.applications| ==>
           && p.applications[k] == Application(p.applied[k], user.id, resume, p.applications[k].coverLetter, Pending)
           && !Falsy(p.applications[k].coverLetter)
    decreases |jobs|
  {
    if jobs != [] {
      RunJobsApplicationShape(jobs[..|jobs| - 1], user, resume, template, generate);
    }
  }

  /** The collected ids are the matched ids in order, with gaps where a job
      failed. */
  lemma {:induction false} RunJobsAppliedInOrder(jobs: seq<Job>, user: User, resume: string,
                                                 template: Option<string>, generate: Generator)
    ensures IsSubsequence(RunJobs(jobs, user, resume, template, generate).applied, JobIds(jobs))
    decreases |jobs|
  {
    if jobs != [] {
      var init := jobs[..|jobs| - 1];
      var job := jobs[|jobs| - 1];
      RunJobsAppliedInOrder(init, user, resume, template, generate);
      var before := RunJobs(init, user, resume, template, generate);
      assert JobIds(jobs) == JobIds(init) + [job.id];
      if before.uncaught.None? {
        var after := Step(before, job, user.id, resume, generate(job, user, template));
        if after.applied == before.applied {
          SubsequenceSkipLast(before.applied, JobIds(init), job.id);
        } else {
          assert after.applied == before.applied + [job.id];
          SubsequenceKeepLast(before.applied, JobIds(init), job.id);
        }
      } else {
        SubsequenceSkipLast(before.applied, JobIds(init), job.id);
      }
    }
  }

  /** The loop's state after the first k jobs is a prefix of its state after
      all of them: later jobs only append rows and ids. */
  lemma {:induction false} RunJobsExtends(jobs: seq<Job>, k: nat, user: User, resume: string,
                                          template: Option<string>, generate: Generator)
    requires k <= |jobs|
    ensures var p := RunJobs(jobs[..k], user, resume, template, generate);
      var q := RunJobs(jobs, user, resume, template, generate);
      && p.logs <= q.logs
      && p.applications <= q.applications
      && p.applied <= q.applied
    decreases |jobs|
  {
    if k < |jobs| {
      var init := jobs[..|jobs| - 1];
      assert init[..k] == jobs[..k];
      RunJobsExtends(init, k, user, resume, template, generate);
    } else {
      assert jobs[..k] == jobs;
    }
  }

  /** The loop keeps a reply that is a returned, non-falsy letter. */
  predicate Accepts(reply: Reply) {
    reply.Returned? && !Falsy(reply.text)
  }

  /** A reply that neither `catch (Exception $e)` stops. */
  predicate Escapes(reply: Reply) {
    reply.Raised? && reply.thrown.Error?
  }

  /** Matched job k, reached with no `Error` before it: its log, and for an
      accepted letter its application and id, are fixed by the generator's
      reply for that job. A thrown `Exception` is logged as `failed` with its
      message; an empty letter as `failed` with the fixed message; a letter
      as `success`, with a pending application that stores that very letter;
      an `Error` ends the loop with no log for job k. */
  lemma JobOutcome(jobs: seq<Job>, k: nat, user: User, resume: string,
                   template: Option<string>, generate: Generator)
    requires k < |jobs|
    requires RunJobs(jobs[..k], user, resume, template, generate).uncaught.None?
    ensures var before := RunJobs(jobs[..k], user, resume, template, generate);
      var p := RunJobs(jobs, user, resume, template, generate);
      var reply := generate(jobs[k], user, template);
      var id := Some(jobs[k].id);
      && (reply.Raised? && reply.thrown.Exception? ==>
            k < |p.logs| && p.logs[k] == LogEntry(user.id, id, Failed, Some(reply.thrown.message)))
      && (reply.Returned? && Falsy(reply.text) ==>
            k < |p.logs| && p.logs[k] == LogEntry(user.id, id, Failed, Some(EmptyCoverLetter)))
      && (Accepts(reply) ==>
            && k < |p.logs| && p.logs[k] == LogEntry(user.id, id, Success, None)
            && |before.applications| < |p.applications|
            && p.applications[|before.applications|] == Application(jobs[k].id, user.id, resume, reply.text, Pending)
            && |before.applied| < |p.applied|
            && p.applied[|before.applied|] == jobs[k].id)
      && (Escapes(reply) ==>
            && p.uncaught == Some(reply.thrown)
            && |p.logs| == k
            && p.logs == before.logs
            && p.applications == before.applications
            && p.applied == before.applied)
  {
    RunJobsLogs(jobs[..k], user, resume, template, generate);
    RunJobsStep(jobs, k, user, resume, template, generate);
    if Escapes(generate(jobs[k], user, template)) {
      UncaughtIsFinal(jobs, k + 1, user, resume, template, generate);
    } else {
      RunJobsExtends(jobs, k + 1, user, resume, template, generate);
    }
  }

  /** Reference for a loop that runs to the end: the matched jobs whose
      generator reply the loop accepts, in matched order. */
  function AcceptedJobs(jobs: seq<Job>, user: User, template: Option<string>, generate: Generator): (r: seq<Job>)
    ensures forall j :: j in r <==> j in jobs && Accepts(generate(j, user, template))
    ensures IsSubsequence(r, jobs)
    decreases |jobs|
  {
    if jobs == [] then []
    else
      var init := AcceptedJobs(jobs[..|jobs| - 1], user, template, generate);
      var job := jobs[|jobs| - 1];
      assert jobs == jobs[..|jobs| - 1] + [job];
      if Accepts(generate(job, user, template)) then
        SubsequenceKeepLast(init, jobs[..|jobs| - 1], job);
        init + [job]
      else
        SubsequenceSkipLast(init, jobs[..|jobs| - 1], job);
        init
  }

  /** The loop stops early exactly when some matched job's reply is an `Error`. */
  lemma {:induction false} RunJobsStopsOnlyOnError(jobs: seq<Job>, user: User, resume: string,
                                                   template: Option<string>, generate: Generator)
    ensures RunJobs(jobs, user, resume, template, generate).uncaught.Some?
        <==> exists k :: 0 <= k < |jobs| && Escapes(generate(jobs[k], user, template))
    decreases |jobs|
  {
    if jobs != [] {
      var init := jobs[..|jobs| - 1];
      RunJobsStopsOnlyOnError(init, user, resume, template, generate);
      if exists k :: 0 <= k < |init| && Escapes(generate(init[k], user, template)) {
        var k :| 0 <= k < |init| && Escapes(generate(init[k], user, template));
        assert jobs[k] == init[k];
      }
      if exists k :: 0 <= k < |jobs| && Escapes(generate(jobs[k], user, template)) {
        var k :| 0 <= k < |jobs| && Escapes(generate(jobs[k], user, template));
        if k < |init| {
          assert init[k] == jobs[k];
        }
      }
    }
  }

  /** A loop that no `Error` stopped writes one log per matched job, and
      log k is `success` exactly when job k's reply is accepted. */
  lemma {:induction false} FinishedRunLogStatuses(jobs: seq<Job>, user: User, resume: string,
                                                  template: Option<string>, generate: Generator)
    requires RunJobs(jobs, user, resume, template, generate).uncaught.None?
    ensures var p := RunJobs(jobs, user, resume, template, generate);
      && |p.logs| == |jobs|
      && forall k :: 0 <= k < |jobs| ==>
           p.logs[k].status == (if Accepts(generate(jobs[k], user, template)) then Success else Failed)
    decreases |jobs|
  {
    if jobs != [] {
      var init := jobs[..|jobs| - 1];
      var job := jobs[|jobs| - 1];
      var before := RunJobs(init, user, resume, template, generate);
      var reply := generate(job, user, template);
      assert before.uncaught.None?;
      FinishedRunLogStatuses(init, user, resume, template, generate);
      var p := RunJobs(jobs, user, resume, template, generate);
      assert p == Step(before, job, user.id, resume, reply);
      var log := LogEntry(user.id, Some(job.id), if Accepts(reply) then Success else Failed, p.logs[|init|].reason);
      assert p.logs == before.logs + [log];
      forall k | 0 <= k < |jobs|
        ensures p.logs[k].status == (if Accepts(generate(jobs[k], user, template)) then Success else Failed)
      {
        if k < |init| {
          assert jobs[k] == init[k];
        }
      }
    }
  }

  /** One job whose reply is not an `Error`: an accepted letter appends its
      application and id; any other reply appends neither. */
  lemma StepKeepsAccepted(before: Progress, job: Job, userId: nat, resume: string, reply: Reply)
    requires !Escapes(reply)
    ensures var after := Step(before, job, userId, resume, reply);
      && (Accepts(reply) ==>
            && after.applied == before.applied + [job.id]
            && after.applications == before.applications + [Application(job.id, userId, resume, reply.text, Pending)])
      && (!Accepts(reply) ==> after.applied == before.applied && after.applications == before.applications)
  {
  }

  /** A loop that no `Error` stopped collects the ids of exactly the
      accepted jobs, in order, and the application for each stores that
      job's own reply as its letter. */
  lemma {:induction false} FinishedRunAppliesAccepted(jobs: seq<Job>, user: User, resume: string,
                                                      template: Option<string>, generate: Generator)
    requires RunJobs(jobs, user, resume, template, generate).uncaught.None?
    ensures var p := RunJobs(jobs, user, resume, template, generate);
      var acc := AcceptedJobs(jobs, user, template, generate);
      && p.applied == JobIds(acc)
      && |p.applications| == |acc|
      && (forall i :: 0 <= i < |acc| ==>
            p.applications[i] == Application(acc[i].id, user.id, resume, generate(acc[i], user, template).text, Pending))
    decreases |jobs|
  {
    if jobs != [] {
      var init := jobs[..|jobs| - 1];
      var job := jobs[|jobs| - 1];
      var before := RunJobs(init, user, resume, template, generate);
      var reply := generate(job, user, template);
      assert before.uncaught.None? && !Escapes(reply);
      FinishedRunAppliesAccepted(init, user, resume, template, generate);
      StepKeepsAccepted(before, job, user.id, resume, reply);
      var acc0 := AcceptedJobs(init, user, template, generate);
      if Accepts(reply) {
        var acc := acc0 + [job];
        assert JobIds(acc) == JobIds(acc0) + [job.id];
        assert forall i :: 0 <= i < |acc0| ==> acc[i] == acc0[i];
      }
    }
  }

  /** The skip paths: not subscribed, no preference, or auto-apply disabled
      write no log and no application and return null. */
  lemma SkippedUserWritesNothing(user: User, db: Tables, parse: JsonListParser, generate: Generator)
    requires !user.subscribedPremium || user.preference.None? || !user.preference.value.autoApplyEnabled
    ensures UserEffect(user, db, parse, generate) == Effect([], [], Done(None))
  {
  }

  /** A missing profile or resume writes exactly one user-level `failed` log,
      whether or not any job matches. */
  lemma MissingResumeWritesOneFailure(user: User, db: Tables, parse: JsonListParser, generate: Generator)
    requires user.subscribedPremium && user.preference.Some? && user.preference.value.autoApplyEnabled
    requires ResumeMissing(user.profile)
    ensures UserEffect(user, db, parse, generate)
         == Effect([LogEntry(user.id, None, Failed, Some(ProfileOrResumeMissing))], [], Done(None))
  {
  }

  /** With a resume but no matching job: exactly one `no_jobs_found` log, no
      application and no `completed` log. */
  lemma NoMatchWritesOneNoJobsFound(user: User, db: Tables, parse: JsonListParser, generate: Generator)
    requires user.subscribedPremium && user.preference.Some? && user.preference.value.autoApplyEnabled
    requires !ResumeMissing(user.profile)
    requires FilteredJobs(user.preference.value, Some(user.id), db, parse) == []
    ensures var e := UserEffect(user, db, parse, generate);
      && e.logs == [LogEntry(user.id, None, NoJobsFound, Some(NoMatchingJobs))]
      && e.applications == []
      && CountStatus(e.logs, Completed) == 0
  {
    var e := UserEffect(user, db, parse, generate);
    assert e.logs[..0] == [];
  }

  /** A run that reaches the job loop and finishes: the returned ids are
      those of the matched jobs whose reply is a non-empty letter, in matched
      order; there are as many of
      them as new applications and as `success` logs; each matched job has one
      `success` or `failed` log; and one `completed` log, stating the count,
      closes the run exactly when some job succeeded. */
  lemma {:induction false} FinishedRunAccounting(user: User, db: Tables, parse: JsonListParser, generate: Generator)
    requires user.subscribedPremium && user.preference.Some? && user.preference.value.autoApplyEnabled
    requires !ResumeMissing(user.profile)
    requires UserEffect(user, db, parse, generate).outcome.Done?
    ensures var e := UserEffect(user, db, parse, generate);
      var matches := FilteredJobs(user.preference.value, Some(user.id), db, parse);
      matches != [] ==>
        && e.outcome.applied.Some?
        && var ids := e.outcome.applied.value;
        && ids == JobIds(AcceptedJobs(matches, user, user.preference.value.coverLetterTemplate, generate))
        && IsSubsequence(ids, JobIds(matches))
        && |ids| == |e.applications| == CountStatus(e.logs, Success)
        && CountStatus(e.logs, Success) + CountStatus(e.logs, Failed) == |matches|
        && CountStatus(e.logs, Completed) == (if |ids| > 0 then 1 else 0)
        && (|ids| > 0 ==>
              e.logs[|e.logs| - 1] == LogEntry(user.id, None, Completed,
                Some("Auto-apply completed successfully for " + NatToString(|ids|) + " jobs")))
        && (forall a :: a in e.applications ==>
              a.userId == user.id && a.status == Pending
              && a.resumePath == user.profile.value.resumePath.value)
  {
    var pref := user.preference.value;
    var matches := FilteredJobs(pref, Some(user.id), db, parse);
    if matches != [] {
      var resume := user.profile.value.resumePath.value;
      var template := pref.coverLetterTemplate;
      var p := RunJobs(matches, user, resume, template, generate);
      assert p.uncaught.None?;
      assert |p.logs| == |matches| && forall k :: 0 <= k < |p.logs| ==> p.logs[k].status != Completed by {
        RunJobsLogs(matches, user, resume, template, generate);
      }
      assert Balanced(p) by {
        RunJobsCounts(matches, user, resume, template, generate);
      }
      assert IsSubsequence(p.applied, JobIds(matches)) by {
        RunJobsAppliedInOrder(matches, user, resume, template, generate);
      }
      assert p.applied == JobIds(AcceptedJobs(matches, user, template, generate)) by {
        FinishedRunAppliesAccepted(matches, user, resume, template, generate);
      }
      assert forall a :: a in p.applications ==> a.userId == user.id && a.status == Pending && a.resumePath == resume by {
        RunJobsApplicationShape(matches, user, resume, template, generate);
        forall a | a in p.applications
          ensures a.userId == user.id && a.status == Pending && a.resumePath == resume
        {
          var k :| 0 <= k < |p.applications| && p.applications[k] == a;
        }
      }
      SummaryAccounting(p, user.id);
    }
  }

  /** The summary closes a finished loop's logs: the counts of `success`
      and `failed` logs are unchanged, and one `completed` log stating the
      count is added, last, exactly when some job succeeded. */
  lemma SummaryAccounting(p: Progress, userId: nat)
    requires Balanced(p)
    requires forall k :: 0 <= k < |p.logs| ==> p.logs[k].status != Completed
    ensures var logs := p.logs + SummaryLogs(userId, p.applied);
      && CountStatus(logs, Success) == |p.applied|
      && CountStatus(logs, Success) + CountStatus(logs, Failed) == |p.logs|
      && CountStatus(logs, Completed) == (if |p.applied| > 0 then 1 else 0)
      && (|p.applied| > 0 ==>
            logs[|logs| - 1] == LogEntry(userId, None, Completed,
              Some("Auto-apply completed successfully for " + NatToString(|p.applied|) + " jobs")))
  {
    var summary := SummaryLogs(userId, p.applied);
    CountStatusAppend(p.logs, summary, Success);
    CountStatusAppend(p.logs, summary, Failed);
    CountStatusAppend(p.logs, summary, Completed);
    AbsentMeansZeroCount(p.logs, Completed);
    if summary != [] {
      assert summary[..0] == [];
    }
  }

  /** A run that reaches the job loop and finishes, job by job: matched job
      k's log is `success` exactly when its reply is a non-empty letter, and
      the i-th new application stores the reply of the i-th such job. */
  lemma FinishedRunPerJob(user: User, db: Tables, parse: JsonListParser, generate: Generator)
    requires user.subscribedPremium && user.preference.Some? && user.preference.value.autoApplyEnabled
    requires !ResumeMissing(user.profile)
    requires UserEffect(user, db, parse, generate).outcome.Done?
    ensures var e := UserEffect(user, db, parse, generate);
      var template := user.preference.value.coverLetterTemplate;
      var matches := FilteredJobs(user.preference.value, Some(user.id), db, parse);
      var acc := AcceptedJobs(matches, user, template, generate);
      && |matches| <= |e.logs|
      && (forall k :: 0 <= k < |matches| ==>
            e.logs[k].status == (if Accepts(generate(matches[k], user, template)) then Success else Failed))
      && |e.applications| == |acc|
      && (forall i :: 0 <= i < |acc| ==>
            e.applications[i] == Application(acc[i].id, user.id, user.profile.value.resumePath.value,
                                             generate(acc[i], user, template).text, Pending))
  {
    var pref := user.preference.value;
    var matches := FilteredJobs(pref, Some(user.id), db, parse);
    if matches != [] {
      var resume := user.profile.value.resumePath.value;
      FinishedRunLogStatuses(matches, user, resume, pref.coverLetterTemplate, generate);
      FinishedRunAppliesAccepted(matches, user, resume, pref.coverLetterTemplate, generate);
    }
  }

  /** A status that does not occur is counted zero times. */
  lemma {:induction false} AbsentMeansZeroCount(logs: seq<LogEntry>, s: LogStatus)
    requires forall k :: 0 <= k < |logs| ==> logs[k].status != s
    ensures CountStatus(logs, s) == 0
    decreases |logs|
  {
    if logs != [] {
      AbsentMeansZeroCount(logs[..|logs| - 1], s);
    }
  }

  /** The 'No jobs applied successfully' reason is never written. */
  lemma NoneAppliedReasonUnreachable(user: User, db: Tables, parse: JsonListParser, generate: Generator)
    ensures forall l :: l in UserEffect(user, db, parse, generate).logs && l.status == Completed ==>
      l.reason != Some(NoneApplied)
  {
    if user.subscribedPremium && user.preference.Some? && user.preference.value.autoApplyEnabled
       && !ResumeMissing(user.profile) {
      var pref := user.preference.value;
      var matches := FilteredJobs(pref, Some(user.id), db, parse);
      if matches != [] {
        var resume := user.profile.value.resumePath.value;
        var p := RunJobs(matches, user, resume, pref.coverLetterTemplate, generate);
        RunJobsLogs(matches, user, resume, pref.coverLetterTemplate, generate);
        forall l | l in p.logs ensures l.status != Completed {
          var k :| 0 <= k < |p.logs| && p.logs[k] == l;
        }
      }
    }
  }

  /** Running a user again after a run in which no job failed finds no jobs:
      every job matched the first time now has that user's application, so
      the second run writes only `no_jobs_found` and no duplicate application. */
  lemma {:induction false} SecondRunFindsNothing(user: User, db: Tables, parse: JsonListParser, generate: Generator)
    requires user.subscribedPremium && user.preference.Some? && user.preference.value.autoApplyEnabled
    requires !ResumeMissing(user.profile)
    requires UserEffect(user, db, parse, generate).outcome.Done?
    requires CountStatus(UserEffect(user, db, parse, generate).logs, Failed) == 0
    ensures var first := UserEffect(user, db, parse, generate);
      var again := UserEffect(user, db.(applications := db.applications + first.applications), parse, generate);
      again == Effect([LogEntry(user.id, None, NoJobsFound, Some(NoMatchingJobs))], [], Done(None))
  {
    var first := UserEffect(user, db, parse, generate);
    var db2 := db.(applications := db.applications + first.applications);
    var pref := user.preference.value;
    var matches := FilteredJobs(pref, Some(user.id), db, parse);
    var again := FilteredJobs(pref, Some(user.id), db2, parse);
    var resume := user.profile.value.resumePath.value;
    var template := pref.coverLetterTemplate;
    var p := RunJobs(matches, user, resume, template, generate);
    RunJobsLogs(matches, user, resume, template, generate);
    CountStatusAppend(p.logs, SummaryLogs(user.id, p.applied), Failed);
    ZeroCountMeansAbsent(p.logs, Failed);
    forall j | j in again ensures j in matches {
      MoreApplicationsSelectFewer(pref, Some(user.id), db, first.applications, parse, j);
    }
    forall j | j in matches ensures j !in again {
      var k :| 0 <= k < |matches| && matches[k] == j;
      RunJobsSuccessApplied(matches, user, resume, template, generate, k);
      var a :| a in p.applications && a.jobId == j.id && a.userId == user.id;
      assert a in db2.applications;
      AppliedJobExcluded(pref, user.id, db2, parse, a, j);
    }
    NoMemberMeansEmpty(again);
  }

  /** Every log and every application `processForUser` writes carries the
      processed user's id. */
  lemma UserEffectRowsBelongToUser(user: User, db: Tables, parse: JsonListParser, generate: Generator)
    ensures var e := UserEffect(user, db, parse, generate);
      && (forall l :: l in e.logs ==> l.userId == user.id)
      && (forall a :: a in e.applications ==> a.userId == user.id)
  {
    if user.subscribedPremium && user.preference.Some? && user.preference.value.autoApplyEnabled
       && !ResumeMissing(user.profile) {
      var pref := user.preference.value;
      var matches := FilteredJobs(pref, Some(user.id), db, parse);
      if matches != [] {
        var resume := user.profile.value.resumePath.value;
        var p := RunJobs(matches, user, resume, pref.coverLetterTemplate, generate);
        RunJobsLogs(matches, user, resume, pref.coverLetterTemplate, generate);
        RunJobsApplicationShape(matches, user, resume, pref.coverLetterTemplate, generate);
        forall l | l in p.logs ensures l.userId == user.id {
          var k :| 0 <= k < |p.logs| && p.logs[k] == l;
        }
        forall a | a in p.applications ensures a.userId == user.id {
          var k :| 0 <= k < |p.applications| && p.applications[k] == a;
        }
      }
    }
  }

  /** What `processForUser` does for one user does not depend on other
      users' applications. */
  lemma UserEffectIgnoresOthersApplications(user: User, db: Tables, more: seq<Application>,
                                            parse: JsonListParser, generate: Generator)
    requires forall a :: a in more ==> a.userId != user.id
    ensures UserEffect(user, db.(applications := db.applications + more), parse, generate)
         == UserEffect(user, db, parse, generate)
  {
    if user.preference.Some? {
      OtherUsersApplicationsIgnored(user.preference.value, user.id, db, more, parse);
    }
  }

  /** The job loop sees the generator only through its replies: two runs
      whose generators reply alike on every matched job write the same rows. */
  lemma {:induction false} RunJobsSameReplies(jobs: seq<Job>, user: User, user': User, resume: string,
                                              template: Option<string>, template': Option<string>,
                                              generate: Generator, generate': Generator)
    requires user.id == user'.id
    requires forall k :: 0 <= k < |jobs| ==> generate(jobs[k], user, template) == generate'(jobs[k], user', template')
    ensures RunJobs(jobs, user, resume, template, generate) == RunJobs(jobs, user', resume, template', generate')
    decreases |jobs|
  {
    if jobs != [] {
      var init := jobs[..|jobs| - 1];
      assert forall k :: 0 <= k < |init| ==> init[k] == jobs[k];
      RunJobsSameReplies(init, user, user', resume, template, template', generate, generate');
      assert generate(jobs[|jobs| - 1], user, template) == generate'(jobs[|jobs| - 1], user', template');
    }
  }

  /** With `generateCoverLetter` as the generator, the preference's
      `cover_letter_template` changes nothing `processForUser` writes or
      returns: the template never reaches the prompt. */
  lemma CoverLetterTemplateHasNoEffect(user: User, db: Tables, parse: JsonListParser, gateway: Gateway,
                                       template: Option<string>)
    requires user.preference.Some?
    ensures var user' := user.(preference := Some(user.preference.value.(coverLetterTemplate := template)));
      UserEffect(user', db, parse, ServiceGenerator(gateway)) == UserEffect(user, db, parse, ServiceGenerator(gateway))
  {
    var pref := user.preference.value;
    var pref' := pref.(coverLetterTemplate := template);
    var user' := user.(preference := Some(pref'));
    FilteredJobsIgnoresTemplate(pref, template, Some(user.id), db, parse);
    var matches := FilteredJobs(pref, Some(user.id), db, parse);
    var g := ServiceGenerator(gateway);
    forall k | 0 <= k < |matches|
      ensures g(matches[k], user, pref.coverLetterTemplate) == g(matches[k], user', template)
    {
      assert BasePrompt(matches[k], user) == BasePrompt(matches[k], user');
    }
    if !ResumeMissing(user.profile) {
      RunJobsSameReplies(matches, user, user', user.profile.value.resumePath.value,
                         pref.coverLetterTemplate, template, g, g);
    }
  }

  /** The tables, the matcher reads and `processForUser` appends to. */
  class Store {
    var jobs: seq<Job>
    var jobTypes: seq<JobType>
    var applications: seq<Application>
    var logs: seq<LogEntry>

    constructor (jobs: seq<Job>, jobTypes: seq<JobType>, applications: seq<Application>, logs: seq<LogEntry>)
      ensures this.jobs == jobs && this.jobTypes == jobTypes
      ensures this.applications == applications && this.logs == logs
    {
      this.jobs := jobs;
      this.jobTypes := jobTypes;
      this.applications := applications;
      this.logs := logs;
    }

    function Snapshot(): Tables
      reads this
    {
      Tables(jobs, jobTypes, applications)
    }

    /** The loop at app/Services/AutoApplyService.php:86-141 over the matched jobs: appends the rows
        `RunJobs` describes and returns the collected ids, or stops at the
        first `Error` the generator throws and returns it. */
    method ApplyToMatches(matches: seq<Job>, user: User, resume: string, template: Option<string>,
                          generate: Generator) returns (applied: seq<nat>, crashed: Option<Throwable>)
      modifies this`logs, this`applications
      ensures var p := RunJobs(matches, user, resume, template, generate);
        && logs == old(logs) + p.logs
        && applications == old(applications) + p.applications
        && applied == p.applied
        && crashed == p.uncaught
    {
      applied := [];
      var i := 0;
      while i < |matches|
        invariant 0 <= i <= |matches|
        invariant var p := RunJobs(matches[..i], user, resume, template, generate);
          && p.uncaught.None?
          && logs == old(logs) + p.logs
          && applications == old(applications) + p.applications
          && applied == p.applied
      {
        var job := matches[i];
        RunJobsStep(matches, i, user, resume, template, generate);
        match generate(job, user, template) {
          case Raised(Exception(m)) =>
            logs := logs + [LogEntry(user.id, Some(job.id), Failed, Some(m))];
          case Raised(Error(m)) =>
            UncaughtIsFinal(matches, i + 1, user, resume, template, generate);
            return applied, Some(Error(m));
          case Returned(letter) =>
            if Falsy(letter) {
              logs := logs + [LogEntry(user.id, Some(job.id), Failed, Some(EmptyCoverLetter))];
            } else {
              applications := applications + [Application(job.id, user.id, resume, letter, Pending)];
              logs := logs + [LogEntry(user.id, Some(job.id), Success, None)];
              applied := applied + [job.id];
            }
        }
        i := i + 1;
      }
      assert matches[..i] == matches;
      crashed := None;
    }

    /** `processForUser($user)`: appends to the two tables exactly the rows
        `UserEffect` describes, in order, and returns its outcome; the job
        listings and job types are left as they were. */
    method ProcessForUser(user: User, parse: JsonListParser, generate: Generator) returns (outcome: Outcome)
      modifies this`logs, this`applications
      ensures var e := UserEffect(user, old(Snapshot()), parse, generate);
        && logs == old(logs) + e.logs
        && applications == old(applications) + e.applications
        && outcome == e.outcome
    {
      if !user.subscribedPremium {
        return Done(None);
      }
      if user.preference.None? || !user.preference.value.autoApplyEnabled {
        return Done(None);
      }
      var pref := user.preference.value;
      var matches := FilteredJobs(pref, Some(user.id), Snapshot(), parse);
      if ResumeMissing(user.profile) {
        logs := logs + [LogEntry(user.id, None, Failed, Some(ProfileOrResumeMissing))];
        return Done(None);
      }
      if matches == [] {
        logs := logs + [LogEntry(user.id, None, NoJobsFound, Some(NoMatchingJobs))];
        return Done(None);
      }
      var resume := user.profile.value.resumePath.value;
      var applied, crashed := ApplyToMatches(matches, user, resume, pref.coverLetterTemplate, generate);
      if crashed.Some? {
        return Crashed(crashed.value);
      }
      if applied != [] {
        var reason := if |applied| > 0
          then "Auto-apply completed successfully for " + NatToString(|applied|) + " jobs"
          else NoneApplied;
        logs := logs + [LogEntry(user.id, None, Completed, Some(reason))];
      }
      return Done(Some(applied));
    }
  }
}
