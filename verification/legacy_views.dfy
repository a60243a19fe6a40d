/**
 * The request handlers of myapp/views.py, the older copy of the views. They
 * take the same steps as the current copy but send no mail: the code of a
 * new or re-issued account is written to the server log instead, there is
 * no welcome mail, no application receipt or employer notice, and a status
 * change is stored without telling the candidate.
 *
 * `save_job`, `post_job` and `job_detail` are the same in both copies, so
 * their methods here run the current copy's.
 */
module LegacyViews {
  import opened Wrappers
  import opened Decimal
  import opened Query
  import opened Models
  import opened Forms
  import opened Store
  import Views

  /** `RegisterUser`: the same checks and rows as the current copy; the code is only logged. */
  method RegisterUser(db: Db, f: RegistrationForm, emailValid: bool, code: int) returns (outcome: Outcome)
    requires db.Valid()
    requires MinCode <= code <= MaxCode
    modifies db`users, db`candidates, db`companies
    ensures db.Valid()
    ensures !RegistrationAcceptable(old(db.users), f, emailValid) ==>
      && outcome == RegistrationRefused(ExpectedErrors(old(db.users), f, emailValid))
      && db.users == old(db.users) && db.candidates == old(db.candidates) && db.companies == old(db.companies)
    ensures RegistrationAcceptable(old(db.users), f, emailValid) ==>
      && outcome == Registered(false)
      && db.users == old(db.users) + [NewUser(f.email, f.password, code, f.role)]
      && (f.role == CandidateRole ==>
            && db.candidates == old(db.candidates) + [Candidate(|old(db.users)|, f.fname, f.lname, f.email)]
            && db.companies == old(db.companies))
      && (f.role == CompanyRole ==>
            && db.companies == old(db.companies)
                 + [Company(|old(db.users)|, f.fname, f.lname, CompanyNameOrDefault(f), "", "", "", "")]
            && db.candidates == old(db.candidates))
    ensures EmailsUnique(old(db.users)) ==> EmailsUnique(db.users)
  {
    var errors := RegistrationErrors(db.users, f, emailValid);
    if errors != [] {
      return RegistrationRefused(errors);
    }
    var u := |db.users|;
    db.users := db.users + [NewUser(f.email, f.password, code, f.role)];
    if f.role == CandidateRole {
      db.candidates := db.candidates + [Candidate(u, f.fname, f.lname, f.email)];
    } else {
      db.companies := db.companies + [Company(u, f.fname, f.lname, CompanyNameOrDefault(f), "", "", "", "")];
    }
    outcome := Registered(false);
  }

  /** `verify_otp`: the same checks and update as the current copy, without the welcome mail. */
  method VerifyOtp(db: Db, email: string, entered: string) returns (outcome: Outcome)
    requires db.Valid()
    modifies db`users
    ensures db.Valid()
    ensures Emails(db.users) == Emails(old(db.users))
    ensures email == "" || entered == "" ==> outcome == MissingFields
    ensures email != "" && entered != "" && !IsFiveDigitCode(entered) ==> outcome == BadCodeFormat
    ensures email != "" && IsFiveDigitCode(entered) && email !in Emails(old(db.users)) ==> outcome == NoAccount
    ensures outcome == ServerError <==>
      email != "" && IsFiveDigitCode(entered) && Get(Emails(old(db.users)), email) == ManyRows
    ensures outcome == AlreadyVerified <==>
      && email != "" && IsFiveDigitCode(entered) && Views.FindsOne(old(db.users), email)
      && old(db.users)[Views.AccountOf(old(db.users), email)].isVerified
    ensures outcome == Verified <==>
      && email != "" && IsFiveDigitCode(entered) && Views.FindsOne(old(db.users), email)
      && !old(db.users)[Views.AccountOf(old(db.users), email)].isVerified
      && CodeMatches(old(db.users)[Views.AccountOf(old(db.users), email)].otp, entered)
    ensures outcome == Verified ==>
      var u := Views.AccountOf(old(db.users), email);
      db.users == old(db.users)[u := old(db.users)[u].(isVerified := true, otp := 0)]
    ensures outcome == WrongCode ==>
      && Views.FindsOne(old(db.users), email)
      && !CodeMatches(old(db.users)[Views.AccountOf(old(db.users), email)].otp, entered)
    ensures outcome != Verified ==> db.users == old(db.users)
    ensures outcome in {MissingFields, BadCodeFormat, NoAccount, ServerError, AlreadyVerified, Verified, WrongCode}
  {
    if email == "" || entered == "" {
      return MissingFields;
    }
    if !IsFiveDigitCode(entered) {
      return BadCodeFormat;
    }
    match Get(Emails(db.users), email)
    case NoRow => outcome := NoAccount;
    case ManyRows => outcome := ServerError;
    case OneRow(u) =>
      if db.users[u].isVerified {
        outcome := AlreadyVerified;
      } else if IntToString(db.users[u].otp) == entered {
        db.users := db.users[u := db.users[u].(isVerified := true, otp := 0)];
        outcome := Verified;
      } else {
        outcome := WrongCode;
      }
  }

  /** `resend_otp`: a fresh code for an account not yet verified; it is only logged. */
  method ResendOtp(db: Db, email: string, emailValid: bool, code: int) returns (outcome: Outcome)
    requires db.Valid()
    requires MinCode <= code <= MaxCode
    modifies db`users
    ensures db.Valid()
    ensures Emails(db.users) == Emails(old(db.users))
    ensures email == "" ==> outcome == MissingFields
    ensures email != "" && !emailValid ==> outcome == InvalidEmail
    ensures email != "" && emailValid && email !in Emails(old(db.users)) ==> outcome == NoAccount
    ensures outcome == CodeIssued(false) <==>
      && email != "" && emailValid && Views.FindsOne(old(db.users), email)
      && !old(db.users)[Views.AccountOf(old(db.users), email)].isVerified
    ensures outcome == CodeIssued(false) ==>
      var u := Views.AccountOf(old(db.users), email);
      db.users == old(db.users)[u := old(db.users)[u].(otp := code)]
    ensures outcome != CodeIssued(false) ==> db.users == old(db.users)
    ensures outcome in {MissingFields, InvalidEmail, NoAccount, ServerError, AlreadyVerified, CodeIssued(false)}
  {
    if email == "" {
      return MissingFields;
    }
    if !emailValid {
      return InvalidEmail;
    }
    match Get(Emails(db.users), email)
    case NoRow => outcome := NoAccount;
    case ManyRows => outcome := ServerError;
    case OneRow(u) =>
      if db.users[u].isVerified {
        outcome := AlreadyVerified;
      } else {
        db.users := db.users[u := db.users[u].(otp := code)];
        outcome := CodeIssued(false);
      }
  }

  /** `apply_job` on a POST: the same rule of one pending application per pair, with no mail. */
  method ApplyJob(db: Db, sessionEmail: string, jobId: nat, coverLetter: string) returns (outcome: Outcome)
    requires db.Valid()
    modifies db`applications, db`nextApplicationId
    ensures db.Valid()
    ensures Views.CandidateCalling(db, sessionEmail).Err? ==> outcome == Views.CandidateCalling(db, sessionEmail).error
    ensures outcome.Applied? <==>
      && Views.CandidateCalling(db, sessionEmail).Ok?
      && jobId in db.jobs && db.jobs[jobId].isActive
      && !HasApplied(old(db.applications), jobId, Views.CandidateCalling(db, sessionEmail).value.profileId)
      && coverLetter != ""
    ensures outcome.Applied? ==>
      var c := Views.CandidateCalling(db, sessionEmail).value.profileId;
      && outcome.id == old(db.nextApplicationId) && outcome.id !in old(db.applications)
      && db.applications == old(db.applications)[outcome.id := JobApplication(jobId, c, coverLetter, Pending)]
      && |ApplicationsOf(db.applications, jobId)| == |ApplicationsOf(old(db.applications), jobId)| + 1
    ensures outcome == NotFound <==>
      Views.CandidateCalling(db, sessionEmail).Ok? && (jobId !in db.jobs || !db.jobs[jobId].isActive)
    ensures outcome == AlreadyApplied <==>
      && Views.CandidateCalling(db, sessionEmail).Ok? && jobId in db.jobs && db.jobs[jobId].isActive
      && HasApplied(old(db.applications), jobId, Views.CandidateCalling(db, sessionEmail).value.profileId)
    ensures !outcome.Applied? ==> db.applications == old(db.applications)
  {
    var actor := Views.CandidateCalling(db, sessionEmail);
    if actor.Err? {
      return actor.error;
    }
    var c := actor.value.profileId;
    if jobId !in db.jobs || !db.jobs[jobId].isActive {
      return NotFound;
    }
    if HasApplied(db.applications, jobId, c) {
      return AlreadyApplied;
    }
    if coverLetter == "" {
      return MissingCoverLetter;
    }
    var id := db.nextApplicationId;
    var application := JobApplication(jobId, c, coverLetter, Pending);
    AddApplication(db.applications, id, application);
    db.applications := db.applications[id := application];
    db.nextApplicationId := id + 1;
    outcome := Applied(id);
  }

  /** `save_job`: the create-or-delete toggle of the current copy. */
  method SaveJob(db: Db, sessionEmail: string, jobId: nat) returns (outcome: Outcome)
    requires db.Valid()
    modifies db`saved, db`nextSavedId
    ensures db.Valid()
    ensures Views.CandidateCalling(db, sessionEmail).Err? ==> outcome == Views.CandidateCalling(db, sessionEmail).error
    ensures (outcome == Bookmarked || outcome == Unbookmarked) <==>
      Views.CandidateCalling(db, sessionEmail).Ok? && jobId in db.jobs && db.jobs[jobId].isActive
    ensures outcome == Bookmarked || outcome == Unbookmarked ==>
      var p := SavedJob(Views.CandidateCalling(db, sessionEmail).value.profileId, jobId);
      && SavedPairs(db.saved) == Toggle(SavedPairs(old(db.saved)), p)
      && (outcome == Bookmarked <==> p !in SavedPairs(old(db.saved)))
    ensures outcome != Bookmarked && outcome != Unbookmarked ==> db.saved == old(db.saved)
  {
    outcome := Views.SaveJob(db, sessionEmail, jobId);
  }

  /** `post_job`: the same checks and new row as the current copy. */
  method PostJob(db: Db, sessionEmail: string, f: JobForm, vacanciesField: Option<string>,
                 deadlineField: string, parsed: Option<Date>, today: Date)
    returns (outcome: Outcome)
    requires db.Valid()
    modifies db`jobs, db`nextJobId
    ensures db.Valid()
    ensures Views.CompanyCalling(db, sessionEmail).Err? ==> outcome == Views.CompanyCalling(db, sessionEmail).error
    ensures outcome.Posted? <==>
      && Views.CompanyCalling(db, sessionEmail).Ok?
      && RequiredJobFields(f)
      && CheckDeadline(deadlineField, parsed, today).Deadline?
    ensures outcome.Posted? ==>
      var c := Views.CompanyCalling(db, sessionEmail).value.profileId;
      && outcome.id == old(db.nextJobId) && outcome.id !in old(db.jobs)
      && db.jobs == old(db.jobs)[outcome.id := PostedJob(c, db.companies[c].companyName, f,
                                                       NormaliseVacancies(vacanciesField),
                                                       CheckDeadline(deadlineField, parsed, today).date)]
    ensures outcome == MissingFields ==> !RequiredJobFields(f)
    ensures outcome == DeadlinePassed ==> CheckDeadline(deadlineField, parsed, today) == PastDeadline
    ensures !outcome.Posted? ==> db.jobs == old(db.jobs)
  {
    outcome := Views.PostJob(db, sessionEmail, f, vacanciesField, deadlineField, parsed, today);
  }

  /**
   * `update_application_status`: the same ownership and status checks; the
   * new status is stored even when it equals the old one, and nobody is
   * mailed.
   */
  method UpdateApplicationStatus(db: Db, sessionEmail: string, applicationId: nat, statusField: string)
    returns (outcome: Outcome)
    requires db.Valid()
    modifies db`applications
    ensures db.Valid()
    ensures Views.CompanyCalling(db, sessionEmail).Err? ==> outcome == Views.CompanyCalling(db, sessionEmail).error
    ensures outcome == StatusSet <==>
      && Views.CompanyCalling(db, sessionEmail).Ok?
      && applicationId in old(db.applications)
      && Views.OwnsJob(db.jobs, old(db.applications)[applicationId].job,
                       Views.CompanyCalling(db, sessionEmail).value.profileId)
      && ParseStatus(statusField).Some?
    ensures outcome == StatusSet ==>
      db.applications == old(db.applications)[applicationId :=
                           old(db.applications)[applicationId].(status := ParseStatus(statusField).value)]
    ensures outcome == NotOwner ==>
      && Views.CompanyCalling(db, sessionEmail).Ok? && applicationId in old(db.applications)
      && !Views.OwnsJob(db.jobs, old(db.applications)[applicationId].job,
                        Views.CompanyCalling(db, sessionEmail).value.profileId)
    ensures outcome == InvalidStatus ==> ParseStatus(statusField).None?
    ensures outcome != StatusSet ==> db.applications == old(db.applications)
  {
    var actor := Views.CompanyCalling(db, sessionEmail);
    if actor.Err? {
      return actor.error;
    }
    if applicationId !in db.applications {
      return NotFound;
    }
    var application := db.applications[applicationId];
    if !Views.OwnsJob(db.jobs, application.job, actor.value.profileId) {
      return NotOwner;
    }
    match ParseStatus(statusField)
    case None => outcome := InvalidStatus;
    case Some(status) =>
      StatusChanged(db.applications, db.jobs, db.candidates, db.nextApplicationId, applicationId, status);
      db.applications := db.applications[applicationId := application.(status := status)];
      outcome := StatusSet;
  }

  /** `job_detail`: the view counter of the current copy. */
  method JobDetail(db: Db, jobId: nat) returns (outcome: Outcome)
    requires db.Valid()
    modifies db`jobs
    ensures db.Valid()
    ensures outcome == Viewed <==> jobId in old(db.jobs) && old(db.jobs)[jobId].isActive
    ensures outcome == Viewed ==>
      db.jobs == old(db.jobs)[jobId := old(db.jobs)[jobId].(viewsCount := old(db.jobs)[jobId].viewsCount + 1)]
    ensures outcome != Viewed ==> outcome == NotFound && db.jobs == old(db.jobs)
  {
    outcome := Views.JobDetail(db, jobId);
  }
}
