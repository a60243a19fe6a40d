/**
 * The request handlers of myproject/myapp/views.py, the current copy of the
 * job board's views: registration and the one-time-code flows, the login
 * gate, applying, bookmarking, posting, editing and deleting jobs, changing an
 * application's status and the view counter of a job's page.
 *
 * Each handler is a method on the database. Form fields arrive as they are
 * after the handler's `.strip()` / `.lower()`, with "" for a field that was
 * not sent. What the handler asks of the outside world is a parameter: the
 * verdict of Django's `validate_email`, the value `randint(10000, 99999)`
 * drew, the date `strptime` read, `date.today()`, and whether the mail server
 * took a message. The mails a handler sends are returned in `mails`.
 */
module Views {
  import opened Wrappers
  import opened Decimal
  import opened Query
  import opened Models
  import opened Forms
  import opened Store

  /** A message handed to the mail server, with the parts the handlers fill in. */
  datatype Mail =
    | OtpMail(to: string, code: int, name: string)
    | WelcomeMail(to: string, name: string, role: string)
    | PasswordResetMail(to: string, code: int, name: string)
    | ApplicationReceivedMail(to: string, name: string, jobTitle: string, companyName: string)
    | NewApplicationMail(to: string, name: string, applicant: string, jobTitle: string, applicationId: nat)
    | StatusMail(to: string, name: string, jobTitle: string, companyName: string, status: Status)

  /** The account row `email` finds, when `.get(email=email)` finds exactly one. */
  predicate FindsOne(users: seq<UserMaster>, email: string) {
    Get(Emails(users), email).OneRow?
  }

  function AccountOf(users: seq<UserMaster>, email: string): (u: nat)
    requires FindsOne(users, email)
    ensures u < |users| && users[u].email == email
    ensures forall i :: 0 <= i < |users| && i != u ==> users[i].email != email
  {
    Get(Emails(users), email).index
  }

  /** The name the code mails greet an account by: the profile's first name, else "User". */
  function GreetingName(db: Db, u: nat): string
    reads db`users, db`candidates, db`companies
    requires u < |db.users|
  {
    match ProfileFirstName(db.users, db.candidates, db.companies, u)
    case Some(n) => n
    case None => "User"
  }

  // ------------------------------------------------------------ registration

  /**
   * `RegisterUser`: collect every failed check; when there is none, create
   * the account (active, unverified, holding the drawn code) and the one
   * profile of its role, and mail the code.
   */
  method RegisterUser(db: Db, f: RegistrationForm, emailValid: bool, code: int, mailDelivered: bool)
    returns (outcome: Outcome, mails: seq<Mail>)
    requires db.Valid()
    requires MinCode <= code <= MaxCode
    modifies db`users, db`candidates, db`companies
    ensures db.Valid()
    ensures !RegistrationAcceptable(old(db.users), f, emailValid) ==>
      && outcome == RegistrationRefused(ExpectedErrors(old(db.users), f, emailValid))
      && db.users == old(db.users) && db.candidates == old(db.candidates) && db.companies == old(db.companies)
      && mails == []
    ensures RegistrationAcceptable(old(db.users), f, emailValid) ==>
      && outcome == Registered(!mailDelivered)
      && db.users == old(db.users) + [NewUser(f.email, f.password, code, f.role)]
      && (f.role == CandidateRole ==>
            && db.candidates == old(db.candidates) + [Candidate(|old(db.users)|, f.fname, f.lname, f.email)]
            && db.companies == old(db.companies))
      && (f.role == CompanyRole ==>
            && db.companies == old(db.companies)
                 + [Company(|old(db.users)|, f.fname, f.lname, CompanyNameOrDefault(f), "", "", "", "")]
            && db.candidates == old(db.candidates))
      && mails == [OtpMail(f.email, code, f.fname)]
    ensures EmailsUnique(old(db.users)) ==> EmailsUnique(db.users)
  {
    var errors := RegistrationErrors(db.users, f, emailValid);
    if errors != [] {
      return RegistrationRefused(errors), [];
    }
    var u := |db.users|;
    db.users := db.users + [NewUser(f.email, f.password, code, f.role)];
    if f.role == CandidateRole {
      db.candidates := db.candidates + [Candidate(u, f.fname, f.lname, f.email)];
    } else {
      db.companies := db.companies + [Company(u, f.fname, f.lname, CompanyNameOrDefault(f), "", "", "", "")];
    }
    outcome := Registered(!mailDelivered);
    mails := [OtpMail(f.email, code, f.fname)];
  }

  // -------------------------------------------------------- one-time codes

  /**
   * `verify_otp`: the code must be five digits before any lookup; an
   * already verified account is left alone; a code equal to the stored one
   * verifies the account and clears the code, and a welcome mail follows when
   * the profile lookup for the greeting succeeds.
   */
  method VerifyOtp(db: Db, email: string, entered: string) returns (outcome: Outcome, mails: seq<Mail>)
    requires db.Valid()
    modifies db`users
    ensures db.Valid()
    ensures Emails(db.users) == Emails(old(db.users))
    ensures email == "" || entered == "" ==> outcome == MissingFields
    ensures email != "" && entered != "" && !IsFiveDigitCode(entered) ==> outcome == BadCodeFormat
    ensures email != "" && IsFiveDigitCode(entered) && email !in Emails(old(db.users)) ==> outcome == NoAccount
    ensures outcome == ServerError <==>
      email != "" && IsFiveDigitCode(entered) && Get(Emails(old(db.users)), email) == ManyRows
    ensures outcome == AlreadyVerified <==>
      && email != "" && IsFiveDigitCode(entered) && FindsOne(old(db.users), email)
      && old(db.users)[AccountOf(old(db.users), email)].isVerified
    ensures outcome == Verified <==>
      && email != "" && IsFiveDigitCode(entered) && FindsOne(old(db.users), email)
      && !old(db.users)[AccountOf(old(db.users), email)].isVerified
      && CodeMatches(old(db.users)[AccountOf(old(db.users), email)].otp, entered)
    ensures outcome == Verified ==>
      var u := AccountOf(old(db.users), email);
      && db.users == old(db.users)[u := old(db.users)[u].(isVerified := true, otp := 0)]
      && mails == match ProfileFirstName(old(db.users), db.candidates, db.companies, u)
                  case Some(n) => [WelcomeMail(email, n, old(db.users)[u].role)]
                  case None => []
    ensures outcome == WrongCode ==>
      FindsOne(old(db.users), email) && !CodeMatches(old(db.users)[AccountOf(old(db.users), email)].otp, entered)
    ensures outcome != Verified ==> db.users == old(db.users) && mails == []
    ensures outcome in {MissingFields, BadCodeFormat, NoAccount, ServerError, AlreadyVerified, Verified, WrongCode}
  {
    mails := [];
    if email == "" || entered == "" {
      return MissingFields, mails;
    }
    if !IsFiveDigitCode(entered) {
      return BadCodeFormat, mails;
    }
    match Get(Emails(db.users), email)
    case NoRow => outcome := NoAccount;
    case ManyRows => outcome := ServerError;
    case OneRow(u) =>
      if db.users[u].isVerified {
        outcome := AlreadyVerified;
      } else if IntToString(db.users[u].otp) == entered {
        db.users := db.users[u := db.users[u].(isVerified := true, otp := 0)];
        outcome := Verified;
        match ProfileFirstName(db.users, db.candidates, db.companies, u)
        case Some(n) => mails := [WelcomeMail(email, n, db.users[u].role)];
        case None =>
      } else {
        outcome := WrongCode;
      }
  }

  /**
   * `resend_otp`: a fresh code replaces the stored one, for an account that
   * is not yet verified, and is mailed.
   */
  method ResendOtp(db: Db, email: string, emailValid: bool, code: int, mailDelivered: bool)
    returns (outcome: Outcome, mails: seq<Mail>)
    requires db.Valid()
    requires MinCode <= code <= MaxCode
    modifies db`users
    ensures db.Valid()
    ensures Emails(db.users) == Emails(old(db.users))
    ensures email == "" ==> outcome == MissingFields
    ensures email != "" && !emailValid ==> outcome == InvalidEmail
    ensures email != "" && emailValid && email !in Emails(old(db.users)) ==> outcome == NoAccount
    ensures outcome == CodeIssued(!mailDelivered) <==>
      && email != "" && emailValid && FindsOne(old(db.users), email)
      && !old(db.users)[AccountOf(old(db.users), email)].isVerified
    ensures outcome == CodeIssued(!mailDelivered) ==>
      var u := AccountOf(old(db.users), email);
      && db.users == old(db.users)[u := old(db.users)[u].(otp := code)]
      && mails == [OtpMail(email, code, GreetingName(db, u))]
    ensures !outcome.CodeIssued? ==> db.users == old(db.users) && mails == []
    ensures outcome in {MissingFields, InvalidEmail, NoAccount, ServerError, AlreadyVerified, CodeIssued(!mailDelivered)}
  {
    mails := [];
    if email == "" {
      return MissingFields, mails;
    }
    if !emailValid {
      return InvalidEmail, mails;
    }
    match Get(Emails(db.users), email)
    case NoRow => outcome := NoAccount;
    case ManyRows => outcome := ServerError;
    case OneRow(u) =>
      if db.users[u].isVerified {
        outcome := AlreadyVerified;
      } else {
        db.users := db.users[u := db.users[u].(otp := code)];
        mails := [OtpMail(email, code, GreetingName(db, u))];
        outcome := CodeIssued(!mailDelivered);
      }
  }

  /** `forgot_password`: a fresh code replaces the stored one for any existing account, verified or not. */
  method ForgotPassword(db: Db, email: string, emailValid: bool, code: int, mailDelivered: bool)
    returns (outcome: Outcome, mails: seq<Mail>)
    requires db.Valid()
    requires MinCode <= code <= MaxCode
    modifies db`users
    ensures db.Valid()
    ensures Emails(db.users) == Emails(old(db.users))
    ensures email == "" ==> outcome == MissingFields
    ensures email != "" && !emailValid ==> outcome == InvalidEmail
    ensures email != "" && emailValid && email !in Emails(old(db.users)) ==> outcome == NoAccount
    ensures outcome == CodeIssued(!mailDelivered) <==> email != "" && emailValid && FindsOne(old(db.users), email)
    ensures outcome == CodeIssued(!mailDelivered) ==>
      var u := AccountOf(old(db.users), email);
      && db.users == old(db.users)[u := old(db.users)[u].(otp := code)]
      && mails == [PasswordResetMail(email, code, GreetingName(db, u))]
    ensures !outcome.CodeIssued? ==> db.users == old(db.users) && mails == []
    ensures outcome in {MissingFields, InvalidEmail, NoAccount, ServerError, CodeIssued(!mailDelivered)}
  {
    mails := [];
    if email == "" {
      return MissingFields, mails;
    }
    if !emailValid {
      return InvalidEmail, mails;
    }
    match Get(Emails(db.users), email)
    case NoRow => outcome := NoAccount;
    case ManyRows => outcome := ServerError;
    case OneRow(u) =>
      db.users := db.users[u := db.users[u].(otp := code)];
      mails := [PasswordResetMail(email, code, GreetingName(db, u))];
      outcome := CodeIssued(!mailDelivered);
  }

  /**
   * `reset_password`: every field present, a five-digit code, the new
   * password confirmed and at least six characters long, and the code equal
   * to the stored one; then the password is replaced and the code cleared.
   */
  method ResetPassword(db: Db, email: string, entered: string, newPassword: string, confirmPassword: string)
    returns (outcome: Outcome)
    requires db.Valid()
    modifies db`users
    ensures db.Valid()
    ensures Emails(db.users) == Emails(old(db.users))
    ensures email == "" || entered == "" || newPassword == "" || confirmPassword == "" ==> outcome == MissingFields
    ensures outcome == PasswordChanged <==>
      && email != "" && IsFiveDigitCode(entered)
      && newPassword == confirmPassword && |newPassword| >= MinPasswordLength
      && FindsOne(old(db.users), email)
      && CodeMatches(old(db.users)[AccountOf(old(db.users), email)].otp, entered)
    ensures outcome == PasswordChanged ==>
      var u := AccountOf(old(db.users), email);
      db.users == old(db.users)[u := old(db.users)[u].(password := newPassword, otp := 0)]
    ensures outcome != PasswordChanged ==> db.users == old(db.users)
    ensures outcome == BadCodeFormat ==> !IsFiveDigitCode(entered)
    ensures outcome == PasswordMismatch ==> newPassword != confirmPassword
    ensures outcome == ShortPassword ==> |newPassword| < MinPasswordLength
    ensures outcome == WrongCode ==>
      FindsOne(old(db.users), email) && !CodeMatches(old(db.users)[AccountOf(old(db.users), email)].otp, entered)
    ensures outcome in {MissingFields, BadCodeFormat, PasswordMismatch, ShortPassword, NoAccount, ServerError,
                        PasswordChanged, WrongCode}
  {
    if email == "" || entered == "" || newPassword == "" || confirmPassword == "" {
      return MissingFields;
    }
    if !IsFiveDigitCode(entered) {
      return BadCodeFormat;
    }
    if newPassword != confirmPassword {
      return PasswordMismatch;
    }
    if |newPassword| < MinPasswordLength {
      return ShortPassword;
    }
    match Get(Emails(db.users), email)
    case NoRow => outcome := NoAccount;
    case ManyRows => outcome := ServerError;
    case OneRow(u) =>
      if IntToString(db.users[u].otp) == entered {
        db.users := db.users[u := db.users[u].(password := newPassword, otp := 0)];
        outcome := PasswordChanged;
      } else {
        outcome := WrongCode;
      }
  }

  /** `resend_reset_otp`: like `forgot_password` but without the email-format check. */
  method ResendResetOtp(db: Db, email: string, code: int, mailDelivered: bool)
    returns (outcome: Outcome, mails: seq<Mail>)
    requires db.Valid()
    requires MinCode <= code <= MaxCode
    modifies db`users
    ensures db.Valid()
    ensures Emails(db.users) == Emails(old(db.users))
    ensures email == "" ==> outcome == MissingFields
    ensures email != "" && email !in Emails(old(db.users)) ==> outcome == NoAccount
    ensures outcome == CodeIssued(!mailDelivered) <==> email != "" && FindsOne(old(db.users), email)
    ensures outcome == CodeIssued(!mailDelivered) ==>
      var u := AccountOf(old(db.users), email);
      && db.users == old(db.users)[u := old(db.users)[u].(otp := code)]
      && mails == [PasswordResetMail(email, code, GreetingName(db, u))]
    ensures !outcome.CodeIssued? ==> db.users == old(db.users) && mails == []
    ensures outcome in {MissingFields, NoAccount, ServerError, CodeIssued(!mailDelivered)}
  {
    mails := [];
    if email == "" {
      return MissingFields, mails;
    }
    match Get(Emails(db.users), email)
    case NoRow => outcome := NoAccount;
    case ManyRows => outcome := ServerError;
    case OneRow(u) =>
      db.users := db.users[u := db.users[u].(otp := code)];
      mails := [PasswordResetMail(email, code, GreetingName(db, u))];
      outcome := CodeIssued(!mailDelivered);
  }

  // ------------------------------------------------------------------ login

  /** What a successful login puts in the session. */
  datatype Session = Session(email: string, role: string, userId: nat)

  /**
   * The profile lookup `login_view` makes after writing the session raises
   * MultipleObjectsReturned: the account has several profile rows of its
   * role. (No row is caught and only leaves the name fields blank.)
   */
  predicate ProfileRowsClash(users: seq<UserMaster>, candidates: seq<Candidate>, companies: seq<Company>, u: nat)
    requires u < |users|
  {
    || (users[u].role == CandidateRole && Get(CandidateOwners(candidates), u) == ManyRows)
    || (users[u].role == CompanyRole && Get(CompanyOwners(companies), u) == ManyRows)
  }

  /**
   * `login_view`, the credential and flag gate: one account with this email
   * and password, active and verified, has the session written for it; the
   * login then succeeds unless the profile lookup that follows raises.
   */
  method LoginView(db: Db, email: string, password: string, emailValid: bool)
    returns (outcome: Outcome, session: Option<Session>)
    ensures email == "" || password == "" ==> outcome == MissingFields
    ensures email != "" && password != "" && !emailValid ==> outcome == InvalidEmail
    ensures email != "" && password != "" && emailValid && (email, password) !in Logins(db.users) ==>
      outcome == BadCredentials
    ensures session.Some? <==>
      && email != "" && password != "" && emailValid
      && Get(Logins(db.users), (email, password)).OneRow?
      && db.users[Get(Logins(db.users), (email, password)).index].isActive
      && db.users[Get(Logins(db.users), (email, password)).index].isVerified
    ensures session.Some? ==>
      && session.value.userId < |db.users|
      && db.users[session.value.userId].email == email
      && db.users[session.value.userId].password == password
      && db.users[session.value.userId].isActive && db.users[session.value.userId].isVerified
      && session.value == Session(email, db.users[session.value.userId].role, session.value.userId)
    ensures outcome == LoggedIn <==>
      && session.Some?
      && session.value.userId < |db.users|
      && !ProfileRowsClash(db.users, db.candidates, db.companies, session.value.userId)
    ensures session.Some? && outcome != LoggedIn ==> outcome == ServerError
    ensures outcome == Deactivated ==> Get(Logins(db.users), (email, password)).OneRow?
    ensures outcome in {MissingFields, InvalidEmail, BadCredentials, ServerError, Deactivated, NotVerified, LoggedIn}
  {
    session := None;
    if email == "" || password == "" {
      return MissingFields, session;
    }
    if !emailValid {
      return InvalidEmail, session;
    }
    match Get(Logins(db.users), (email, password))
    case NoRow => outcome := BadCredentials;
    case ManyRows => outcome := ServerError;
    case OneRow(u) =>
      if !db.users[u].isActive {
        outcome := Deactivated;
      } else if !db.users[u].isVerified {
        outcome := NotVerified;
      } else {
        session := Some(Session(db.users[u].email, db.users[u].role, u));
        if ProfileRowsClash(db.users, db.candidates, db.companies, u) {
          outcome := ServerError;
        } else {
          outcome := LoggedIn;
        }
      }
  }

  // ------------------------------------------------------------------- jobs

  /** The caller as a candidate: the guard of `apply_job` and `save_job`. */
  function CandidateCalling(db: Db, sessionEmail: string): (r: Result<Actor, Outcome>)
    reads db`users, db`candidates
    ensures r.Ok? ==>
      && r.value.userId < |db.users| && db.users[r.value.userId].email == sessionEmail
      && db.users[r.value.userId].role == CandidateRole
      && r.value.profileId < |db.candidates| && db.candidates[r.value.profileId].userId == r.value.userId
    ensures r.Err? ==> r.error in {NotLoggedIn, UnknownUser, WrongRole, NoProfile, ServerError}
  {
    CurrentActor(db.users, CandidateOwners(db.candidates), sessionEmail, CandidateRole)
  }

  /** The caller as an employer: the guard of the job-management handlers. */
  function CompanyCalling(db: Db, sessionEmail: string): (r: Result<Actor, Outcome>)
    reads db`users, db`companies
    ensures r.Ok? ==>
      && r.value.userId < |db.users| && db.users[r.value.userId].email == sessionEmail
      && db.users[r.value.userId].role == CompanyRole
      && r.value.profileId < |db.companies| && db.companies[r.value.profileId].userId == r.value.userId
    ensures r.Err? ==> r.error in {NotLoggedIn, UnknownUser, WrongRole, NoProfile, ServerError}
  {
    CurrentActor(db.users, CompanyOwners(db.companies), sessionEmail, CompanyRole)
  }

  /** `get_object_or_404(Job, id=jobId, company=company)` finds the row. */
  predicate OwnsJob(jobs: map<nat, Job>, jobId: nat, company: nat) {
    jobId in jobs && jobs[jobId].company == Some(company)
  }

  /**
   * The mail to the employer about a new application; none for a job without
   * a company, or when the employer's rows cannot be read (the handler logs
   * the exception and goes on).
   */
  function EmployerNotice(users: seq<UserMaster>, companies: seq<Company>, job: Job, applicant: Candidate, id: nat): (m: seq<Mail>)
    ensures job.company.None? ==> m == []
    ensures |m| <= 1
    ensures m != [] ==> m[0].NewApplicationMail? && m[0].applicationId == id && m[0].jobTitle == job.title
    ensures job.company.Some? && job.company.value < |companies| && companies[job.company.value].userId < |users| ==>
      && |m| == 1
      && m[0].to == users[companies[job.company.value].userId].email
      && m[0].name == companies[job.company.value].firstname
      && m[0].applicant == applicant.firstName + " " + applicant.lastName
  {
    match job.company
    case None => []
    case Some(c) =>
      if c < |companies| && companies[c].userId < |users| then
        [NewApplicationMail(users[companies[c].userId].email, companies[c].firstname,
                            applicant.firstName + " " + applicant.lastName, job.title, id)]
      else []
  }

  /**
   * `apply_job` on a POST: a candidate applies once to an active job, with a
   * cover letter; the new application is pending, the candidate gets a
   * receipt and the employer a notice.
   */
  method ApplyJob(db: Db, sessionEmail: string, jobId: nat, coverLetter: string)
    returns (outcome: Outcome, mails: seq<Mail>)
    requires db.Valid()
    modifies db`applications, db`nextApplicationId
    ensures db.Valid()
    ensures CandidateCalling(db, sessionEmail).Err? ==> outcome == CandidateCalling(db, sessionEmail).error
    ensures outcome.Applied? <==>
      && CandidateCalling(db, sessionEmail).Ok?
      && jobId in db.jobs && db.jobs[jobId].isActive
      && !HasApplied(old(db.applications), jobId, CandidateCalling(db, sessionEmail).value.profileId)
      && coverLetter != ""
    ensures outcome.Applied? ==>
      var c := CandidateCalling(db, sessionEmail).value.profileId;
      var job := db.jobs[jobId];
      && outcome.id == old(db.nextApplicationId) && outcome.id !in old(db.applications)
      && db.applications == old(db.applications)[outcome.id := JobApplication(jobId, c, coverLetter, Pending)]
      && |ApplicationsOf(db.applications, jobId)| == |ApplicationsOf(old(db.applications), jobId)| + 1
      && mails == [ApplicationReceivedMail(db.candidates[c].email, db.candidates[c].firstName, job.title, job.companyName)]
                  + EmployerNotice(db.users, db.companies, job, db.candidates[c], outcome.id)
    ensures outcome == NotFound <==>
      CandidateCalling(db, sessionEmail).Ok? && (jobId !in db.jobs || !db.jobs[jobId].isActive)
    ensures outcome == AlreadyApplied <==>
      && CandidateCalling(db, sessionEmail).Ok? && jobId in db.jobs && db.jobs[jobId].isActive
      && HasApplied(old(db.applications), jobId, CandidateCalling(db, sessionEmail).value.profileId)
    ensures !outcome.Applied? ==> db.applications == old(db.applications) && mails == []
  {
    mails := [];
    var actor := CandidateCalling(db, sessionEmail);
    if actor.Err? {
      return actor.error, mails;
    }
    var c := actor.value.profileId;
    if jobId !in db.jobs || !db.jobs[jobId].isActive {
      return NotFound, mails;
    }
    if HasApplied(db.applications, jobId, c) {
      return AlreadyApplied, mails;
    }
    if coverLetter == "" {
      return MissingCoverLetter, mails;
    }
    var id := db.nextApplicationId;
    var application := JobApplication(jobId, c, coverLetter, Pending);
    AddApplication(db.applications, id, application);
    db.applications := db.applications[id := application];
    db.nextApplicationId := id + 1;
    var job := db.jobs[jobId];
    var candidate := db.candidates[c];
    mails := [ApplicationReceivedMail(candidate.email, candidate.firstName, job.title, job.companyName)]
             + EmployerNotice(db.users, db.companies, job, candidate, id);
    outcome := Applied(id);
  }

  /**
   * `save_job`: `get_or_create` on the (candidate, job) pair, and a delete
   * when the row was already there.
   */
  method SaveJob(db: Db, sessionEmail: string, jobId: nat) returns (outcome: Outcome)
    requires db.Valid()
    modifies db`saved, db`nextSavedId
    ensures db.Valid()
    ensures CandidateCalling(db, sessionEmail).Err? ==> outcome == CandidateCalling(db, sessionEmail).error
    ensures (outcome == Bookmarked || outcome == Unbookmarked) <==>
      CandidateCalling(db, sessionEmail).Ok? && jobId in db.jobs && db.jobs[jobId].isActive
    ensures outcome == Bookmarked || outcome == Unbookmarked ==>
      var p := SavedJob(CandidateCalling(db, sessionEmail).value.profileId, jobId);
      && SavedPairs(db.saved) == Toggle(SavedPairs(old(db.saved)), p)
      && (outcome == Bookmarked <==> p !in SavedPairs(old(db.saved)))
    ensures outcome != Bookmarked && outcome != Unbookmarked ==> db.saved == old(db.saved)
  {
    var actor := CandidateCalling(db, sessionEmail);
    if actor.Err? {
      return actor.error;
    }
    if jobId !in db.jobs || !db.jobs[jobId].isActive {
      return NotFound;
    }
    var p := SavedJob(actor.value.profileId, jobId);
    if p in SavedPairs(db.saved) {
      var k :| k in db.saved && db.saved[k] == p;
      BookmarkRemoved(db.saved, db.jobs, db.candidates, db.nextSavedId, k);
      db.saved := db.saved - {k};
      outcome := Unbookmarked;
    } else {
      var k := db.nextSavedId;
      BookmarkAdded(db.saved, db.jobs, db.candidates, k, p);
      db.saved := db.saved[k := p];
      db.nextSavedId := k + 1;
      outcome := Bookmarked;
    }
  }

  /**
   * `post_job` on a POST: an employer's form with the four required fields
   * and no past deadline becomes a new active job of its company, with the
   * vacancies clamped to at least one.
   */
  method PostJob(db: Db, sessionEmail: string, f: JobForm, vacanciesField: Option<string>,
                 deadlineField: string, parsed: Option<Date>, today: Date)
    returns (outcome: Outcome)
    requires db.Valid()
    modifies db`jobs, db`nextJobId
    ensures db.Valid()
    ensures CompanyCalling(db, sessionEmail).Err? ==> outcome == CompanyCalling(db, sessionEmail).error
    ensures outcome.Posted? <==>
      && CompanyCalling(db, sessionEmail).Ok?
      && RequiredJobFields(f)
      && CheckDeadline(deadlineField, parsed, today).Deadline?
    ensures outcome.Posted? ==>
      var c := CompanyCalling(db, sessionEmail).value.profileId;
      && outcome.id == old(db.nextJobId) && outcome.id !in old(db.jobs)
      && db.jobs == old(db.jobs)[outcome.id := PostedJob(c, db.companies[c].companyName, f,
                                                       NormaliseVacancies(vacanciesField),
                                                       CheckDeadline(deadlineField, parsed, today).date)]
    ensures outcome == MissingFields ==> !RequiredJobFields(f)
    ensures outcome == DeadlinePassed ==> CheckDeadline(deadlineField, parsed, today) == PastDeadline
    ensures !outcome.Posted? ==> db.jobs == old(db.jobs)
  {
    var actor := CompanyCalling(db, sessionEmail);
    if actor.Err? {
      return actor.error;
    }
    if !RequiredJobFields(f) {
      return MissingFields;
    }
    var vacancies := NormaliseVacancies(vacanciesField);
    var deadline := CheckDeadline(deadlineField, parsed, today);
    if deadline == PastDeadline {
      return DeadlinePassed;
    }
    var c := actor.value.profileId;
    var id := db.nextJobId;
    db.jobs := db.jobs[id := PostedJob(c, db.companies[c].companyName, f, vacancies, deadline.date)];
    db.nextJobId := id + 1;
    outcome := Posted(id);
  }

  /**
   * `edit_job` on a POST: only a job of the caller's company (active or
   * not), with the same checks as posting; the owner, company name, flags and
   * view counter are kept.
   */
  method EditJob(db: Db, sessionEmail: string, jobId: nat, f: JobForm, vacanciesField: Option<string>,
                 deadlineField: string, parsed: Option<Date>, today: Date)
    returns (outcome: Outcome)
    requires db.Valid()
    modifies db`jobs
    ensures db.Valid()
    ensures CompanyCalling(db, sessionEmail).Err? ==> outcome == CompanyCalling(db, sessionEmail).error
    ensures outcome == Edited <==>
      && CompanyCalling(db, sessionEmail).Ok?
      && OwnsJob(old(db.jobs), jobId, CompanyCalling(db, sessionEmail).value.profileId)
      && RequiredJobFields(f)
      && CheckDeadline(deadlineField, parsed, today).Deadline?
    ensures outcome == Edited ==>
      db.jobs == old(db.jobs)[jobId := EditedJob(old(db.jobs)[jobId], f, NormaliseVacancies(vacanciesField),
                                                 CheckDeadline(deadlineField, parsed, today).date)]
    ensures outcome == NotFound ==>
      !OwnsJob(old(db.jobs), jobId, CompanyCalling(db, sessionEmail).value.profileId)
    ensures outcome != Edited ==> db.jobs == old(db.jobs)
  {
    var actor := CompanyCalling(db, sessionEmail);
    if actor.Err? {
      return actor.error;
    }
    if !OwnsJob(db.jobs, jobId, actor.value.profileId) {
      return NotFound;
    }
    if !RequiredJobFields(f) {
      return MissingFields;
    }
    var vacancies := NormaliseVacancies(vacanciesField);
    var deadline := CheckDeadline(deadlineField, parsed, today);
    if deadline == PastDeadline {
      return DeadlinePassed;
    }
    db.jobs := db.jobs[jobId := EditedJob(db.jobs[jobId], f, vacancies, deadline.date)];
    outcome := Edited;
  }

  /** `delete_job`: only a job of the caller's company; its applications and bookmarks go with it. */
  method DeleteJob(db: Db, sessionEmail: string, jobId: nat) returns (outcome: Outcome)
    requires db.Valid()
    modifies db`jobs, db`applications, db`saved
    ensures db.Valid()
    ensures CompanyCalling(db, sessionEmail).Err? ==> outcome == CompanyCalling(db, sessionEmail).error
    ensures outcome == Deleted <==>
      CompanyCalling(db, sessionEmail).Ok? && OwnsJob(old(db.jobs), jobId, CompanyCalling(db, sessionEmail).value.profileId)
    ensures outcome == Deleted ==>
      && db.jobs == old(db.jobs) - {jobId}
      && db.applications == DropApplicationsOfJob(old(db.applications), jobId)
      && db.saved == DropSavedOfJob(old(db.saved), jobId)
    ensures outcome != Deleted ==>
      db.jobs == old(db.jobs) && db.applications == old(db.applications) && db.saved == old(db.saved)
  {
    var actor := CompanyCalling(db, sessionEmail);
    if actor.Err? {
      return actor.error;
    }
    if !OwnsJob(db.jobs, jobId, actor.value.profileId) {
      return NotFound;
    }
    JobDeleted(db.jobs, db.applications, db.saved, db.companies, db.candidates,
               db.nextJobId, db.nextApplicationId, db.nextSavedId, jobId);
    db.jobs := db.jobs - {jobId};
    db.applications := DropApplicationsOfJob(db.applications, jobId);
    db.saved := DropSavedOfJob(db.saved, jobId);
    outcome := Deleted;
  }

  /**
   * `update_application_status`: an employer sets the status of an
   * application to one of its own jobs to one of the six values; the
   * candidate is mailed exactly when the status changed.
   */
  method UpdateApplicationStatus(db: Db, sessionEmail: string, applicationId: nat, statusField: string)
    returns (outcome: Outcome, mails: seq<Mail>)
    requires db.Valid()
    modifies db`applications
    ensures db.Valid()
    ensures CompanyCalling(db, sessionEmail).Err? ==> outcome == CompanyCalling(db, sessionEmail).error
    ensures outcome == StatusSet <==>
      && CompanyCalling(db, sessionEmail).Ok?
      && applicationId in old(db.applications)
      && OwnsJob(db.jobs, old(db.applications)[applicationId].job, CompanyCalling(db, sessionEmail).value.profileId)
      && ParseStatus(statusField).Some?
    ensures outcome == StatusSet ==>
      var before := old(db.applications)[applicationId];
      var status := ParseStatus(statusField).value;
      && db.applications == old(db.applications)[applicationId := before.(status := status)]
      && (mails != [] <==> before.status != status)
      && (mails != [] ==>
            var candidate := db.candidates[before.candidate];
            var job := db.jobs[before.job];
            mails == [StatusMail(candidate.email, candidate.firstName, job.title, job.companyName, status)])
    ensures outcome == NotOwner ==>
      && CompanyCalling(db, sessionEmail).Ok? && applicationId in old(db.applications)
      && !OwnsJob(db.jobs, old(db.applications)[applicationId].job, CompanyCalling(db, sessionEmail).value.profileId)
    ensures outcome == InvalidStatus ==> ParseStatus(statusField).None?
    ensures outcome != StatusSet ==> db.applications == old(db.applications) && mails == []
  {
    mails := [];
    var actor := CompanyCalling(db, sessionEmail);
    if actor.Err? {
      return actor.error, mails;
    }
    if applicationId !in db.applications {
      return NotFound, mails;
    }
    var application := db.applications[applicationId];
    if !OwnsJob(db.jobs, application.job, actor.value.profileId) {
      return NotOwner, mails;
    }
    match ParseStatus(statusField)
    case None => outcome := InvalidStatus;
    case Some(status) =>
      StatusChanged(db.applications, db.jobs, db.candidates, db.nextApplicationId, applicationId, status);
      db.applications := db.applications[applicationId := application.(status := status)];
      if application.status != status {
        var candidate := db.candidates[application.candidate];
        var job := db.jobs[application.job];
        mails := [StatusMail(candidate.email, candidate.firstName, job.title, job.companyName, status)];
      }
      outcome := StatusSet;
  }

  /** `job_detail`: an active job's page adds one to its view counter; any other id is a 404. */
  method JobDetail(db: Db, jobId: nat) returns (outcome: Outcome)
    requires db.Valid()
    modifies db`jobs
    ensures db.Valid()
    ensures outcome == Viewed <==> jobId in old(db.jobs) && old(db.jobs)[jobId].isActive
    ensures outcome == Viewed ==>
      db.jobs == old(db.jobs)[jobId := old(db.jobs)[jobId].(viewsCount := old(db.jobs)[jobId].viewsCount + 1)]
    ensures outcome != Viewed ==> outcome == NotFound && db.jobs == old(db.jobs)
  {
    if jobId !in db.jobs || !db.jobs[jobId].isActive {
      return NotFound;
    }
    var job := db.jobs[jobId];
    db.jobs := db.jobs[jobId := job.(viewsCount := job.viewsCount + 1)];
    outcome := Viewed;
  }
}
