/** `AutoApplyService::getFilteredJobs`: which open job listings a user's
    auto-apply preference selects. The query builder's successive `where`
    calls compute a conjunction of row predicates; here that conjunction is
    one filter over the `jobs_listing` rows, kept in table order. */
module JobMatcher {
  import opened Php
  import opened Records

  /** `json_decode($s, true)` for a list of strings: `None` when decoding
      fails or yields null. JSON decoding is not modelled; callers supply it. */
  type JsonListParser = string -> Option<seq<string>>

  /** The first step of the normaliser: a string is JSON-decoded, falling back
      to a one-element list (`?? [$s]`); an array is kept; null becomes `[]`. */
  function Decode(raw: RawList, parse: JsonListParser): seq<string> {
    match raw
    case JsonText(s) => (match parse(s) case Some(items) => items case None => [s])
    case ListValue(items) => items
    case Null => []
  }

  /** `array_filter` without a callback: drops the falsy strings, order kept. */
  function DropFalsy(xs: seq<string>): (r: seq<string>)
    ensures forall x :: x in r <==> x in xs && !Falsy(x)
    ensures IsSubsequence(r, xs)
    decreases |xs|
  {
    if xs == [] then []
    else
      var init := DropFalsy(xs[..|xs| - 1]);
      var last := xs[|xs| - 1];
      assert xs == xs[..|xs| - 1] + [last];
      if Falsy(last) then
        SubsequenceSkipLast(init, xs[..|xs| - 1], last);
        init
      else
        SubsequenceKeepLast(init, xs[..|xs| - 1], last);
        init + [last]
  }

  /** The normaliser applied to `job_titles`, `locations` and `job_types`. */
  function Normalise(raw: RawList, parse: JsonListParser): (r: seq<string>)
    ensures forall x :: x in r ==> !Falsy(x)
  {
    DropFalsy(Decode(raw, parse))
  }

  /** The three input shapes of the normaliser, each followed by `array_filter`. */
  lemma NormaliseShapes(raw: RawList, parse: JsonListParser)
    ensures raw.Null? ==> Normalise(raw, parse) == []
    ensures raw.ListValue? ==>
      forall x :: x in Normalise(raw, parse) <==> x in raw.items && !Falsy(x)
    ensures raw.JsonText? && parse(raw.text).Some? ==>
      forall x :: x in Normalise(raw, parse) <==> x in parse(raw.text).value && !Falsy(x)
    ensures raw.JsonText? && parse(raw.text).None? ==>
      Normalise(raw, parse) == if Falsy(raw.text) then [] else [raw.text]
  {
    if raw.JsonText? && parse(raw.text).None? {
      assert [raw.text][..0] == [];
    }
  }

  function LowerAll(xs: seq<string>): (r: seq<string>)
    ensures |r| == |xs|
    ensures forall i :: 0 <= i < |xs| ==> r[i] == Lower(xs[i])
  {
    seq(|xs|, i requires 0 <= i < |xs| => Lower(xs[i]))
  }

  /** `JobType::whereIn(LOWER(name), array_map('strtolower', $names))->pluck('id')`. */
  function ResolveJobTypeIds(names: seq<string>, types: seq<JobType>): (ids: seq<nat>)
    ensures forall id :: id in ids <==>
      exists t :: t in types && t.id == id && Lower(t.name) in LowerAll(names)
    decreases |types|
  {
    if types == [] then []
    else
      var init := ResolveJobTypeIds(names, types[..|types| - 1]);
      var t := types[|types| - 1];
      assert types == types[..|types| - 1] + [t];
      if Lower(t.name) in LowerAll(names) then init + [t.id] else init
  }

  /** `whereDoesntHave('applications', user_id = $userId)`, only when a user id is given. */
  predicate NotAppliedBy(job: Job, userId: Option<nat>, applications: seq<Application>) {
    userId.None? || !exists a :: a in applications && a.jobId == job.id && a.userId == userId.value
  }

  /** `whereBetween('salary_min', [pref.salary_min, pref.salary_max])` under SQL's
      three-valued logic: a null bound or a null job salary excludes the row. */
  predicate SalaryBetween(pref: Preference, job: Job) {
    && pref.salaryMin.Some? && pref.salaryMax.Some? && job.salaryMin.Some?
    && pref.salaryMin.value <= job.salaryMin.value <= pref.salaryMax.value
  }

  /** The row test the query builder assembles (app/Services/AutoApplyService.php:167-216), with the
      keyword loop's own `!empty($title)` check and the job-type branch that
      adds `0 = 1` when no name resolves. */
  predicate QueryKeeps(pref: Preference, userId: Option<nat>, db: Tables,
                       titles: seq<string>, locations: seq<string>, typeNames: seq<string>, job: Job)
  {
    && job.isOpen
    && (userId.Some? ==> NotAppliedBy(job, userId, db.applications))
    && SalaryBetween(pref, job)
    && (titles != [] ==>
          exists t :: t in titles && !Falsy(Lower(t)) && Contains(Lower(job.title), Lower(t)))
    && (locations != [] ==> job.location.Some? && job.location.value in locations)
    && (typeNames != [] ==>
          var ids := ResolveJobTypeIds(typeNames, db.jobTypes);
          if ids != [] then job.jobTypeId in ids else false)
  }

  /** SQL `WHERE`: the rows that satisfy `keep`, in table order. */
  function Where<T(!new)>(rows: seq<T>, keep: T -> bool): (r: seq<T>)
    ensures forall x :: x in r <==> x in rows && keep(x)
    ensures IsSubsequence(r, rows)
    decreases |rows|
  {
    if rows == [] then []
    else
      var init := Where(rows[..|rows| - 1], keep);
      var last := rows[|rows| - 1];
      assert rows == rows[..|rows| - 1] + [last];
      if keep(last) then
        SubsequenceKeepLast(init, rows[..|rows| - 1], last);
        init + [last]
      else
        SubsequenceSkipLast(init, rows[..|rows| - 1], last);
        init
  }

  // The selection a preference denotes, stated one filter at a time; each
  // list filter is vacuous when its normalised list is empty.

  predicate TitleMatches(job: Job, titles: seq<string>) {
    titles == [] || exists t :: t in titles && Contains(Lower(job.title), Lower(t))
  }

  predicate LocationMatches(job: Job, locations: seq<string>) {
    locations == [] || (job.location.Some? && job.location.value in locations)
  }

  predicate JobTypeMatches(job: Job, typeNames: seq<string>, types: seq<JobType>) {
    typeNames == [] ||
    exists t :: t in types && t.id == job.jobTypeId && Lower(t.name) in LowerAll(typeNames)
  }

  predicate Selected(pref: Preference, userId: Option<nat>, db: Tables, parse: JsonListParser, job: Job) {
    && job.isOpen
    && NotAppliedBy(job, userId, db.applications)
    && SalaryBetween(pref, job)
    && TitleMatches(job, Normalise(pref.jobTitles, parse))
    && LocationMatches(job, Normalise(pref.locations, parse))
    && JobTypeMatches(job, Normalise(pref.jobTypes, parse), db.jobTypes)
  }

  /** Only "" lower-cases to "" and only "0" to "0", so a kept keyword stays
      non-falsy after `strtolower`. */
  lemma LowerKeepsTruthy(s: string)
    requires !Falsy(s)
    ensures !Falsy(Lower(s))
  {
  }

  /** The query's keyword test agrees with `TitleMatches` on a normalised list. */
  lemma TitleTestAgrees(job: Job, titles: seq<string>)
    requires forall t :: t in titles ==> !Falsy(t)
    ensures (titles != [] ==>
               exists t :: t in titles && !Falsy(Lower(t)) && Contains(Lower(job.title), Lower(t)))
            <==> TitleMatches(job, titles)
  {
    if TitleMatches(job, titles) && titles != [] {
      var t :| t in titles && Contains(Lower(job.title), Lower(t));
      LowerKeepsTruthy(t);
    }
  }

  /** The query's resolve-then-filter job-type test agrees with `JobTypeMatches`. */
  lemma JobTypeTestAgrees(job: Job, typeNames: seq<string>, types: seq<JobType>)
    ensures (typeNames != [] ==>
               var ids := ResolveJobTypeIds(typeNames, types);
               if ids != [] then job.jobTypeId in ids else false)
            <==> JobTypeMatches(job, typeNames, types)
  {
    var ids := ResolveJobTypeIds(typeNames, types);
    if JobTypeMatches(job, typeNames, types) && typeNames != [] {
      assert job.jobTypeId in ids;
    }
  }

  lemma QueryKeepsSelected(pref: Preference, userId: Option<nat>, db: Tables, parse: JsonListParser, job: Job)
    ensures QueryKeeps(pref, userId, db, Normalise(pref.jobTitles, parse), Normalise(pref.locations, parse),
                       Normalise(pref.jobTypes, parse), job)
            <==> Selected(pref, userId, db, parse, job)
  {
    TitleTestAgrees(job, Normalise(pref.jobTitles, parse));
    JobTypeTestAgrees(job, Normalise(pref.jobTypes, parse), db.jobTypes);
  }

  /** `getFilteredJobs($preferences, $userId)`: a job is returned iff it is a
      row of `jobs_listing` that satisfies every active filter; rows keep
      their table order. */
  function FilteredJobs(pref: Preference, userId: Option<nat>, db: Tables, parse: JsonListParser): (r: seq<Job>)
    ensures forall j :: j in r <==> j in db.jobs && Selected(pref, userId, db, parse, j)
    ensures IsSubsequence(r, db.jobs)
  {
    var titles := Normalise(pref.jobTitles, parse);
    var locations := Normalise(pref.locations, parse);
    var typeNames := Normalise(pref.jobTypes, parse);
    var keep := j => QueryKeeps(pref, userId, db, titles, locations, typeNames, j);
    var r := Where(db.jobs, keep);
    assert forall j :: keep(j) <==> Selected(pref, userId, db, parse, j) by {
      forall j ensures keep(j) <==> Selected(pref, userId, db, parse, j) {
        QueryKeepsSelected(pref, userId, db, parse, j);
      }
    }
    r
  }

  /** With no title, location or job-type filter, the result is exactly the
      open, not-yet-applied rows whose `salary_min` lies within the bounds. */
  lemma EmptyListFiltersAreVacuous(pref: Preference, userId: Option<nat>, db: Tables, parse: JsonListParser, j: Job)
    requires Normalise(pref.jobTitles, parse) == []
    requires Normalise(pref.locations, parse) == []
    requires Normalise(pref.jobTypes, parse) == []
    ensures j in FilteredJobs(pref, userId, db, parse) <==>
      j in db.jobs && j.isOpen && NotAppliedBy(j, userId, db.applications) && SalaryBetween(pref, j)
  {
  }

  /** A job the user already applied to is never returned. */
  lemma AppliedJobExcluded(pref: Preference, userId: nat, db: Tables, parse: JsonListParser, a: Application, j: Job)
    requires a in db.applications && a.userId == userId && a.jobId == j.id
    ensures j !in FilteredJobs(pref, Some(userId), db, parse)
  {
  }

  /** Job-type filtering fails closed: when the normalised list is non-empty
      but no job type's name matches any of it, nothing is returned. */
  lemma UnresolvedJobTypesSelectNothing(pref: Preference, userId: Option<nat>, db: Tables, parse: JsonListParser)
    requires Normalise(pref.jobTypes, parse) != []
    requires forall t :: t in db.jobTypes ==> Lower(t.name) !in LowerAll(Normalise(pref.jobTypes, parse))
    ensures FilteredJobs(pref, userId, db, parse) == []
  {
    NoMemberMeansEmpty(FilteredJobs(pref, userId, db, parse));
  }

  /** A preference with a null salary bound selects no job at all. */
  lemma NullSalaryBoundSelectsNothing(pref: Preference, userId: Option<nat>, db: Tables, parse: JsonListParser)
    requires pref.salaryMin.None? || pref.salaryMax.None?
    ensures FilteredJobs(pref, userId, db, parse) == []
  {
    NoMemberMeansEmpty(FilteredJobs(pref, userId, db, parse));
  }

  /** Keywords match case-insensitively: upper-casing differences between a
      keyword and the title do not change whether the job is kept. */
  lemma TitleMatchIgnoresKeywordCase(job: Job, titles: seq<string>)
    ensures TitleMatches(job, titles) <==> TitleMatches(job, LowerAll(titles))
  {
    if titles != [] && TitleMatches(job, titles) {
      var t :| t in titles && Contains(Lower(job.title), Lower(t));
      var i :| 0 <= i < |titles| && titles[i] == t;
      LowerIdempotent(t);
      assert LowerAll(titles)[i] in LowerAll(titles);
    }
    if titles != [] && TitleMatches(job, LowerAll(titles)) {
      var t :| t in LowerAll(titles) && Contains(Lower(job.title), Lower(t));
      var i :| 0 <= i < |titles| && LowerAll(titles)[i] == t;
      LowerIdempotent(titles[i]);
      assert titles[i] in titles;
    }
  }

  /** More applications can only shrink the selection. */
  lemma MoreApplicationsSelectFewer(pref: Preference, userId: Option<nat>, db: Tables, more: seq<Application>,
                                    parse: JsonListParser, j: Job)
    requires j in FilteredJobs(pref, userId, db.(applications := db.applications + more), parse)
    ensures j in FilteredJobs(pref, userId, db, parse)
  {
  }

  /** Row tests that agree on every row select the same rows. */
  lemma {:induction false} WhereAgrees<T(!new)>(rows: seq<T>, keep: T -> bool, keep': T -> bool)
    requires forall x :: x in rows ==> (keep(x) <==> keep'(x))
    ensures Where(rows, keep) == Where(rows, keep')
    decreases |rows|
  {
    if rows != [] {
      WhereAgrees(rows[..|rows| - 1], keep, keep');
    }
  }

  /** Only the user's own applications exclude jobs: rows added for other
      users leave the selection exactly as it was. */
  lemma OtherUsersApplicationsIgnored(pref: Preference, userId: nat, db: Tables, more: seq<Application>,
                                      parse: JsonListParser)
    requires forall a :: a in more ==> a.userId != userId
    ensures FilteredJobs(pref, Some(userId), db.(applications := db.applications + more), parse)
         == FilteredJobs(pref, Some(userId), db, parse)
  {
    var db' := db.(applications := db.applications + more);
    var titles := Normalise(pref.jobTitles, parse);
    var locations := Normalise(pref.locations, parse);
    var typeNames := Normalise(pref.jobTypes, parse);
    var keep := j => QueryKeeps(pref, Some(userId), db, titles, locations, typeNames, j);
    var keep' := j => QueryKeeps(pref, Some(userId), db', titles, locations, typeNames, j);
    forall j | j in db.jobs ensures keep(j) <==> keep'(j) {
      assert NotAppliedBy(j, Some(userId), db.applications) <==> NotAppliedBy(j, Some(userId), db'.applications);
    }
    WhereAgrees(db.jobs, keep, keep');
  }

  /** The stored cover-letter template plays no part in job matching. */
  lemma FilteredJobsIgnoresTemplate(pref: Preference, template: Option<string>, userId: Option<nat>,
                                    db: Tables, parse: JsonListParser)
    ensures FilteredJobs(pref.(coverLetterTemplate := template), userId, db, parse)
         == FilteredJobs(pref, userId, db, parse)
  {
    var pref' := pref.(coverLetterTemplate := template);
    var titles := Normalise(pref.jobTitles, parse);
    var locations := Normalise(pref.locations, parse);
    var typeNames := Normalise(pref.jobTypes, parse);
    var keep := j => QueryKeeps(pref, userId, db, titles, locations, typeNames, j);
    var keep' := j => QueryKeeps(pref', userId, db, titles, locations, typeNames, j);
    forall j | j in db.jobs ensures keep(j) <==> keep'(j) {
      assert SalaryBetween(pref, j) <==> SalaryBetween(pref', j);
    }
    WhereAgrees(db.jobs, keep, keep');
  }
}
