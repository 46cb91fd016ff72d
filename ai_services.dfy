/** `AIServices`: the cover-letter prompt and the call to the text-generation
    gateway. The gateway (`GeminiClientInterface::generateText`) is a
    parameter: a function from the prompt to what the call returns or throws. */
module AIServices {
  import opened Php
  import opened Records

  type Gateway = string -> Reply

  const ProfileNotFound := "User profile not found"
  const NotSpecified := "Not specified"
  const NotProvided := "Not provided"
  const TitlePlaceholder := "{job_title}"
  const LocationPlaceholder := "{location}"

  // ---------------------------------------------------------------------
  // defaultPrompt (app/Services/AIServices.php:34-57)
  // ---------------------------------------------------------------------

  /** `$user->profile->skills ? implode(', ', …) : 'Not specified'`. */
  function SkillsText(p: Profile): string {
    if |p.skills| > 0 then Implode(", ", p.skills) else NotSpecified
  }

  /** `$user->profile->bio ?? 'Not specified'`: only a null bio is replaced. */
  function BioText(p: Profile): string {
    match p.bio
    case Some(b) => b
    case None => NotSpecified
  }

  /** The pieces of the heredoc, after PHP strips the closing marker's
      indentation (four spaces of each line remain). */
  function DefaultPromptPieces(job: Job, name: string, skills: string, bio: string): seq<string> {
    [ "    Write a professional cover letter for this job:\n\n    Job Title: ", job.title,
      "\n    Description: ", job.description,
      "\n\n    Candidate Info:\n    Name: ", name,
      "\n    Skills: ", skills,
      "\n    Experience: ", bio,
      "\n\n    Make it concise, polite, and tailored for the job." ]
  }

  /** `defaultPrompt($job, $user)`: fails with 'User profile not found' exactly
      when the user has no profile; otherwise the prompt names the job title,
      the description, the user's name, the skills text and the bio text. */
  function DefaultPrompt(job: Job, user: User): (r: Result<string>)
    ensures r.Err? <==> user.profile.None?
    ensures r.Err? ==> r.message == ProfileNotFound
    ensures r.Ok? ==>
      && Contains(r.value, job.title)
      && Contains(r.value, job.description)
      && Contains(r.value, user.name)
      && Contains(r.value, SkillsText(user.profile.value))
      && Contains(r.value, BioText(user.profile.value))
  {
    match user.profile
    case None => Err(ProfileNotFound)
    case Some(p) =>
      var pieces := DefaultPromptPieces(job, user.name, SkillsText(p), BioText(p));
      ConcatContainsPiece(pieces, 1);
      ConcatContainsPiece(pieces, 3);
      ConcatContainsPiece(pieces, 5);
      ConcatContainsPiece(pieces, 7);
      ConcatContainsPiece(pieces, 9);
      Ok(Concat(pieces))
  }

  /** The skills line lists every skill (joined with ", ") when there is one,
      and reads 'Not specified' otherwise. */
  lemma SkillsTextCases(p: Profile)
    ensures |p.skills| == 0 ==> SkillsText(p) == NotSpecified
    ensures forall k :: 0 <= k < |p.skills| ==> Contains(SkillsText(p), p.skills[k])
  {
    forall k | 0 <= k < |p.skills| ensures Contains(SkillsText(p), p.skills[k]) {
      ImplodeContainsPart(", ", p.skills, k);
    }
  }

  // ---------------------------------------------------------------------
  // generateCoverLetter (app/Services/AIServices.php:15-32)
  // ---------------------------------------------------------------------

  /** `"{$job->location}"`: a null location interpolates as "". */
  function LocationText(job: Job): string {
    match job.location
    case Some(l) => l
    case None => ""
  }

  /** `isset($user->profile->resume_path) ? … : 'Not provided'`. */
  function ResumeText(user: User): string {
    if user.profile.Some? && user.profile.value.resumePath.Some?
    then user.profile.value.resumePath.value
    else NotProvided
  }

  function BasePromptPieces(job: Job, user: User): seq<string> {
    [ "Generate a professional cover letter for the following job:\n\nJob Title: ", job.title,
      "\nLocation: ", LocationText(job),
      "\nSalary: $", job.formattedSalary,
      "\n\nApplicant: ", user.name,
      "\nResume Path: ", ResumeText(user) ]
  }

  /** The base prompt of app/Services/AIServices.php:18-20. */
  function BasePrompt(job: Job, user: User): string {
    Concat(BasePromptPieces(job, user))
  }

  /** The base prompt names the job title, the location, the applicant and
      the resume path (or 'Not provided'). */
  lemma BasePromptMentions(job: Job, user: User)
    ensures Contains(BasePrompt(job, user), job.title)
    ensures Contains(BasePrompt(job, user), LocationText(job))
    ensures Contains(BasePrompt(job, user), user.name)
    ensures Contains(BasePrompt(job, user), ResumeText(user))
  {
    var pieces := BasePromptPieces(job, user);
    ConcatContainsPiece(pieces, 1);
    ConcatContainsPiece(pieces, 3);
    ConcatContainsPiece(pieces, 7);
    ConcatContainsPiece(pieces, 9);
  }

  /** app/Services/AIServices.php:22-23: every `{job_title}` is replaced first, then every
      `{location}` in that result. */
  function Substitute(template: string, title: string, location: string): string {
    Replace(Replace(template, TitlePlaceholder, title), LocationPlaceholder, location)
  }

  /** Because `{location}` is replaced after `{job_title}`, a title that itself
      contains `{location}` is rewritten too: the template `{job_title}`
      yields the title with its `{location}`s replaced. */
  lemma TitleIsRewrittenByLocationPass(title: string, location: string)
    ensures Substitute(TitlePlaceholder, title, location) == Replace(title, LocationPlaceholder, location)
    ensures Substitute(TitlePlaceholder, LocationPlaceholder, location) == location
  {
    ReplaceWhole(TitlePlaceholder, title);
    ReplaceWhole(TitlePlaceholder, LocationPlaceholder);
    ReplaceWhole(LocationPlaceholder, location);
  }

  /** A template with neither placeholder is used verbatim. */
  lemma TemplateWithoutPlaceholdersUnchanged(template: string, title: string, location: string)
    requires !Contains(template, TitlePlaceholder) && !Contains(template, LocationPlaceholder)
    ensures Substitute(template, title, location) == template
  {
    ReplaceAbsent(template, TitlePlaceholder, title);
    ReplaceAbsent(template, LocationPlaceholder, location);
  }

  /** `$options[$key]` read under `??` / `empty()`: absent, or a falsy
      string, counts as not set. */
  predicate OptionSet(options: map<string, string>, key: string) {
    key in options && !Falsy(options[key])
  }

  /** app/Services/AIServices.php:17-29 for `$preferences` seen as an array of options: a set
      `cover_letter_template` replaces the base prompt by its substitution, and
      a set `custom_prompt` is put in front with a blank line between. */
  function CoverLetterPrompt(job: Job, user: User, options: map<string, string>): string {
    var prompt :=
      if OptionSet(options, "cover_letter_template")
      then Substitute(options["cover_letter_template"], job.title, LocationText(job))
      else BasePrompt(job, user);
    if OptionSet(options, "custom_prompt") then options["custom_prompt"] + "\n\n" + prompt else prompt
  }

  /** What the options do to the prompt. A set custom prompt is the only
      thing in front of the prompt the other options give, separated by a
      blank line. A set template with no custom prompt replaces the base
      prompt entirely: the prompt is the same for every user. Without a
      template, the prompt still names the job title and the applicant,
      custom prompt or not. */
  lemma CoverLetterPromptShape(job: Job, user: User, user': User, options: map<string, string>)
    ensures OptionSet(options, "custom_prompt") ==>
      CoverLetterPrompt(job, user, options)
        == options["custom_prompt"] + "\n\n" + CoverLetterPrompt(job, user, options - {"custom_prompt"})
    ensures OptionSet(options, "cover_letter_template") && !OptionSet(options, "custom_prompt") ==>
      CoverLetterPrompt(job, user, options) == CoverLetterPrompt(job, user', options)
    ensures !OptionSet(options, "cover_letter_template") ==>
      Contains(CoverLetterPrompt(job, user, options), job.title)
      && Contains(CoverLetterPrompt(job, user, options), user.name)
  {
    var rest := options - {"custom_prompt"};
    assert OptionSet(rest, "cover_letter_template") <==> OptionSet(options, "cover_letter_template");
    assert !OptionSet(rest, "custom_prompt");
    if !OptionSet(options, "cover_letter_template") {
      BasePromptMentions(job, user);
      if OptionSet(options, "custom_prompt") {
        var pre := options["custom_prompt"] + "\n\n";
        ContainsAfterPrefix(pre, BasePrompt(job, user), job.title);
        ContainsAfterPrefix(pre, BasePrompt(job, user), user.name);
      }
    }
  }

  /** What `$preferences['cover_letter_template']` and
      `$preferences['custom_prompt']` find when `$preferences` is the declared
      `?string`: for null, and for a string indexed by a non-numeric key, `??`
      and `empty()` both read the offset as absent. */
  function ArgumentOffsets(arg: Option<string>): map<string, string> {
    map[]
  }

  /** `generateCoverLetter($job, $user, $preferences)` as written: whatever
      it is passed, it sends the prompt built from the offsets it can read
      and returns the gateway's reply untouched. */
  function GenerateCoverLetter(job: Job, user: User, arg: Option<string>, gateway: Gateway): Reply {
    gateway(CoverLetterPrompt(job, user, ArgumentOffsets(arg)))
  }

  /** As written, the base prompt is always what gets sent, and no profile
      check is made: a user without a profile still reaches the gateway, with
      'Not provided' as resume path. */
  lemma GenerateCoverLetterSendsBasePrompt(job: Job, user: User, arg: Option<string>, gateway: Gateway)
    ensures GenerateCoverLetter(job, user, arg, gateway) == gateway(BasePrompt(job, user))
    ensures user.profile.None? ==> Contains(BasePrompt(job, user), NotProvided)
  {
    BasePromptMentions(job, user);
  }

  /** The generator `processForUser` calls: `generateCoverLetter` bound to a
      gateway. As written, what it sends depends on the job and the user only,
      never on the template it is handed. */
  function ServiceGenerator(gateway: Gateway): (g: Generator)
    ensures forall job, user, template :: g(job, user, template) == gateway(BasePrompt(job, user))
  {
    (job, user, template) => GenerateCoverLetter(job, user, template, gateway)
  }

  /** The options the call at app/Services/AutoApplyService.php:93 evidently
      means to pass: the preference's template under `cover_letter_template`. */
  function TemplateOptions(template: Option<string>): map<string, string> {
    match template
    case Some(t) => map["cover_letter_template" := t]
    case None => map[]
  }

  /** The prompt with the preference's template applied as intended. */
  function IntendedPrompt(job: Job, user: User, template: Option<string>): string {
    CoverLetterPrompt(job, user, TemplateOptions(template))
  }

  /** `generateCoverLetter` with the template reaching the prompt. */
  function GenerateCoverLetterIntended(job: Job, user: User, template: Option<string>, gateway: Gateway): Reply {
    gateway(IntendedPrompt(job, user, template))
  }

  /** With the template passed as intended, a non-empty template replaces the
      base prompt by its substitution, and no template leaves the base prompt. */
  lemma IntendedPromptUsesTemplate(job: Job, user: User, template: Option<string>, gateway: Gateway)
    ensures template.Some? && !Falsy(template.value) ==>
      GenerateCoverLetterIntended(job, user, template, gateway)
        == gateway(Substitute(template.value, job.title, LocationText(job)))
    ensures (template.None? || Falsy(template.value)) ==>
      GenerateCoverLetterIntended(job, user, template, gateway) == gateway(BasePrompt(job, user))
  {
  }

  /** The generator `processForUser` evidently means to call: the template it
      hands over decides the prompt. */
  function IntendedServiceGenerator(gateway: Gateway): (g: Generator)
    ensures forall job: Job, user: User, template: Option<string> ::
      template.Some? && !Falsy(template.value) ==>
        g(job, user, template) == gateway(Substitute(template.value, job.title, LocationText(job)))
    ensures forall job, user :: g(job, user, None) == gateway(BasePrompt(job, user))
  {
    (job, user, template) => GenerateCoverLetterIntended(job, user, template, gateway)
  }

  /** The discrepancy on one input: with the template "Dear hiring manager"
      the code as written sends the base prompt, not the template. */
  lemma TemplateIgnoredAsWritten(job: Job, user: User)
    ensures CoverLetterPrompt(job, user, ArgumentOffsets(Some("Dear hiring manager")))
         != IntendedPrompt(job, user, Some("Dear hiring manager"))
  {
    var t := "Dear hiring manager";
    MissingFirstCharNotContained(t, TitlePlaceholder);
    MissingFirstCharNotContained(t, LocationPlaceholder);
    TemplateWithoutPlaceholdersUnchanged(t, job.title, LocationText(job));
    assert OptionSet(TemplateOptions(Some(t)), "cover_letter_template");
    assert IntendedPrompt(job, user, Some(t)) == t;
    var pieces := BasePromptPieces(job, user);
    ConcatContainsPiece(pieces, 0);
    ContainedIsNoLonger(Concat(pieces), pieces[0]);
    assert |BasePrompt(job, user)| > |t|;
  }
}
