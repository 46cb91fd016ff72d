/** The rows the auto-apply pipeline reads and writes: job listings, job
    types, users with their preference and profile, and the two tables it
    appends to (`applications` and `auto_apply_logs`). Decimal salary columns
    are modelled as integers; a nullable column is an `Option`. */
module Records {
  import opened Php

  /** A row of `jobs_listing`. `formattedSalary` is the text that
      `number_format(floatval($job->salary), 2)` produces, kept opaque. */
  datatype Job = Job(
    id: nat,
    title: string,
    description: string,
    location: Option<string>,
    salaryMin: Option<int>,
    jobTypeId: nat,
    isOpen: bool,
    formattedSalary: string)

  /** A row of `job_types`. */
  datatype JobType = JobType(id: nat, name: string)

  /** What reading a list-valued preference column (`job_titles`,
      `locations`, `job_types`) can yield: text that may hold JSON, an array,
      or null. */
  datatype RawList = JsonText(text: string) | ListValue(items: seq<string>) | Null

  /** A row of `auto_apply_preferences`. */
  datatype Preference = Preference(
    autoApplyEnabled: bool,
    jobTitles: RawList,
    locations: RawList,
    jobTypes: RawList,
    salaryMin: Option<int>,
    salaryMax: Option<int>,
    coverLetterTemplate: Option<string>)

  /** A row of `profiles`; a null `skills` is the empty list. */
  datatype Profile = Profile(resumePath: Option<string>, bio: Option<string>, skills: seq<string>)

  /** A user with the relations the pipeline loads. `subscribedPremium` is
      Cashier's `subscribed('premium')`; `subscriptionTypes` lists the `type`
      of each of the user's subscription rows. */
  datatype User = User(
    id: nat,
    name: string,
    subscribedPremium: bool,
    subscriptionTypes: seq<string>,
    preference: Option<Preference>,
    profile: Option<Profile>)

  /** A row of `applications`. */
  datatype Application = Application(
    jobId: nat,
    userId: nat,
    resumePath: string,
    coverLetter: string,
    status: string)

  /** The `status` enum of `auto_apply_logs`. */
  datatype LogStatus = Success | Failed | NoJobsFound | Completed

  /** A row of `auto_apply_logs`; `jobId` is null for user-level entries. */
  datatype LogEntry = LogEntry(userId: nat, jobId: Option<nat>, status: LogStatus, reason: Option<string>)

  /** A PHP throwable: `Exception` and its subclasses are caught by
      `catch (Exception $e)`; an `Error` (a `TypeError`, say) is not. */
  datatype Throwable = Exception(message: string) | Error(message: string)

  /** What a call to the cover-letter generator does: return a string or throw. */
  datatype Reply = Returned(text: string) | Raised(thrown: Throwable)

  /** `generateCoverLetter($job, $user, $template)`, as seen by its callers. */
  type Generator = (Job, User, Option<string>) -> Reply

  /** The tables `getFilteredJobs` reads. */
  datatype Tables = Tables(jobs: seq<Job>, jobTypes: seq<JobType>, applications: seq<Application>)

  /** The ids of a list of jobs, in order. */
  function JobIds(jobs: seq<Job>): (ids: seq<nat>)
    ensures |ids| == |jobs|
    ensures forall i :: 0 <= i < |jobs| ==> ids[i] == jobs[i].id
  {
    seq(|jobs|, i requires 0 <= i < |jobs| => jobs[i].id)
  }

  /** Number of log entries with the given status. */
  function CountStatus(logs: seq<LogEntry>, s: LogStatus): (n: nat)
    ensures n <= |logs|
    decreases |logs|
  {
    if logs == [] then 0
    else CountStatus(logs[..|logs| - 1], s) + (if logs[|logs| - 1].status == s then 1 else 0)
  }

  /** Counting distributes over concatenation of log sequences. */
  lemma {:induction false} CountStatusAppend(a: seq<LogEntry>, b: seq<LogEntry>, s: LogStatus)
    ensures CountStatus(a + b, s) == CountStatus(a, s) + CountStatus(b, s)
    decreases |b|
  {
    if b != [] {
      var b' := b[..|b| - 1];
      assert (a + b)[..|a + b| - 1] == a + b';
      CountStatusAppend(a, b', s);
    } else {
      assert a + b == a;
    }
  }
}
