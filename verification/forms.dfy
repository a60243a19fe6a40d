/**
 * The checks and normalisations the request handlers apply to submitted
 * form fields, shared by both copies of the views: the one-time code format
 * and comparison, registration validation, and the job-posting form.
 * Field values are taken after the handlers' `.strip()` (and, for role and
 * email, `.lower()`); an absent field is the empty string.
 */
module Forms {
  import opened Wrappers
  import opened Decimal
  import opened Models

  // ------------------------------------------------------- one-time codes

  /** The lowest and highest code `randint(10000, 99999)` issues. */
  const MinCode := 10000
  const MaxCode := 99999

  /** What the verify and reset forms accept before any lookup: `isdigit()` and length 5. */
  predicate IsFiveDigitCode(s: string) { |s| == 5 && AllDigits(s) }

  /** `str(user.otp) == str(otp_entered)`. */
  predicate CodeMatches(stored: int, entered: string) { IntToString(stored) == entered }

  /**
   * For an entry in the accepted format, the string comparison is the
   * numeric one, except that an entry with a leading zero never matches.
   */
  lemma CodeMatchesIff(stored: int, entered: string)
    requires IsFiveDigitCode(entered)
    ensures CodeMatches(stored, entered) <==> entered[0] != '0' && stored == DigitsValue(entered)
  {
    if CodeMatches(stored, entered) {
      assert IsDigit(entered[0]);
      assert stored >= 0;
      ReadShow(stored);
    }
    if entered[0] != '0' && stored == DigitsValue(entered) {
      ShowRead(entered);
    }
  }

  /** Only a stored code in the issuing range can ever be matched by an accepted entry. */
  lemma MatchImpliesIssuedRange(stored: int, entered: string)
    requires IsFiveDigitCode(entered) && CodeMatches(stored, entered)
    ensures MinCode <= stored <= MaxCode
  {
    assert IsDigit(entered[0]);
    FiveDigitRange(stored);
  }

  /** A code cleared to 0 after use matches no accepted entry. */
  lemma ClearedCodeNeverMatches(entered: string)
    requires IsFiveDigitCode(entered)
    ensures !CodeMatches(0, entered)
  {
    if CodeMatches(0, entered) { MatchImpliesIssuedRange(0, entered); }
  }

  /** Every issued code can be typed in: its text is accepted and matches it. */
  lemma IssuedCodeIsEnterable(code: int)
    requires MinCode <= code <= MaxCode
    ensures IsFiveDigitCode(IntToString(code)) && CodeMatches(code, IntToString(code))
  {
    FiveDigitRange(code);
  }

  // --------------------------------------------------------- registration

  datatype RegistrationForm = RegistrationForm(
    role: string,
    fname: string,
    lname: string,
    email: string,
    password: string,
    cpassword: string,
    companyName: string)

  /** The messages RegisterUser collects, in the order it checks them. */
  datatype RegError =
    | FieldsRequired
    | InvalidRole
    | InvalidEmailFormat
    | PasswordsDiffer
    | PasswordTooShort
    | EmailTaken
  {
    function Rank(): nat {
      match this
      case FieldsRequired => 0
      case InvalidRole => 1
      case InvalidEmailFormat => 2
      case PasswordsDiffer => 3
      case PasswordTooShort => 4
      case EmailTaken => 5
    }
  }

  const MinPasswordLength := 6

  predicate AllFieldsPresent(f: RegistrationForm) {
    f.role != "" && f.fname != "" && f.lname != "" && f.email != "" && f.password != "" && f.cpassword != ""
  }

  predicate KnownRole(role: string) { role == CandidateRole || role == CompanyRole }

  /** `UserMaster.objects.filter(email=email).exists()`. */
  predicate EmailInUse(users: seq<UserMaster>, email: string) {
    exists i :: 0 <= i < |users| && users[i].email == email
  }

  /** Every check RegisterUser makes passes. `emailValid` is the verdict of Django's validate_email. */
  predicate RegistrationAcceptable(users: seq<UserMaster>, f: RegistrationForm, emailValid: bool) {
    AllFieldsPresent(f) && KnownRole(f.role) && emailValid && f.password == f.cpassword
    && |f.password| >= MinPasswordLength && !EmailInUse(users, f.email)
  }

  /** Messages in strictly increasing check order, all after check `floor` and none after check `top`. */
  predicate Ascending(errors: seq<RegError>, floor: int, top: int)
    decreases |errors|
  {
    errors == [] || (floor < errors[0].Rank() <= top && Ascending(errors[1..], errors[0].Rank(), top))
  }

  /** Messages in check order, so also without repeats. */
  predicate InCheckOrder(errors: seq<RegError>) { Ascending(errors, -1, EmailTaken.Rank()) }

  /** Appending the message of a later check than any listed keeps the order. */
  lemma {:induction false} AscendingSnoc(errors: seq<RegError>, floor: int, top: int, e: RegError)
    requires Ascending(errors, floor, top) && floor < e.Rank() && top < e.Rank()
    ensures Ascending(errors + [e], floor, e.Rank())
    decreases |errors|
  {
    if errors != [] {
      assert (errors + [e])[1..] == errors[1..] + [e];
      AscendingSnoc(errors[1..], errors[0].Rank(), top, e);
    }
  }

  lemma {:induction false} AscendingRaise(errors: seq<RegError>, floor: int, top: int, top': int)
    requires Ascending(errors, floor, top) && top <= top'
    ensures Ascending(errors, floor, top')
    decreases |errors|
  {
    if errors != [] {
      AscendingRaise(errors[1..], errors[0].Rank(), top, top');
    }
  }

  /** Check order means every earlier message belongs to an earlier check. */
  lemma {:induction false} AscendingPairwise(errors: seq<RegError>, floor: int, top: int)
    requires Ascending(errors, floor, top)
    ensures forall i :: 0 <= i < |errors| ==> floor < errors[i].Rank() <= top
    ensures forall i, j :: 0 <= i < j < |errors| ==> errors[i].Rank() < errors[j].Rank()
    decreases |errors|
  {
    if errors != [] {
      AscendingPairwise(errors[1..], errors[0].Rank(), top);
      forall i, j | 0 <= i < j < |errors| ensures errors[i].Rank() < errors[j].Rank() {
        assert errors[j] == errors[1..][j - 1];
        if i > 0 { assert errors[i] == errors[1..][i - 1]; }
      }
    }
  }

  /** `[e]` when the check failed, nothing otherwise. */
  function IfFailed(failed: bool, e: RegError): seq<RegError> {
    if failed then [e] else []
  }

  /** The messages of the failed checks, in check order. */
  function ExpectedErrors(users: seq<UserMaster>, f: RegistrationForm, emailValid: bool): seq<RegError> {
    IfFailed(!AllFieldsPresent(f), FieldsRequired)
    + IfFailed(!KnownRole(f.role), InvalidRole)
    + IfFailed(!emailValid, InvalidEmailFormat)
    + IfFailed(f.password != f.cpassword, PasswordsDiffer)
    + IfFailed(|f.password| < MinPasswordLength, PasswordTooShort)
    + IfFailed(EmailInUse(users, f.email), EmailTaken)
  }

  /** The six pieces of the list, over the outcomes of the checks alone. */
  lemma {:induction false} PiecesListFailures(b1: bool, b2: bool, b3: bool, b4: bool, b5: bool, b6: bool)
    ensures var errors := IfFailed(b1, FieldsRequired) + IfFailed(b2, InvalidRole) + IfFailed(b3, InvalidEmailFormat)
                          + IfFailed(b4, PasswordsDiffer) + IfFailed(b5, PasswordTooShort) + IfFailed(b6, EmailTaken);
      && ((FieldsRequired in errors) <==> b1)
      && ((InvalidRole in errors) <==> b2)
      && ((InvalidEmailFormat in errors) <==> b3)
      && ((PasswordsDiffer in errors) <==> b4)
      && ((PasswordTooShort in errors) <==> b5)
      && ((EmailTaken in errors) <==> b6)
      && (errors == [] <==> !b1 && !b2 && !b3 && !b4 && !b5 && !b6)
  {
    var errors := IfFailed(b1, FieldsRequired) + IfFailed(b2, InvalidRole) + IfFailed(b3, InvalidEmailFormat)
                  + IfFailed(b4, PasswordsDiffer) + IfFailed(b5, PasswordTooShort) + IfFailed(b6, EmailTaken);
    assert forall x :: x in errors <==>
      (b1 && x == FieldsRequired) || (b2 && x == InvalidRole) || (b3 && x == InvalidEmailFormat)
      || (b4 && x == PasswordsDiffer) || (b5 && x == PasswordTooShort) || (b6 && x == EmailTaken);
  }

  /** Each message is listed exactly when its check fails, and registration goes ahead only with none. */
  lemma ExpectedErrorsListFailures(users: seq<UserMaster>, f: RegistrationForm, emailValid: bool)
    ensures var errors := ExpectedErrors(users, f, emailValid);
      && ((FieldsRequired in errors) <==> !AllFieldsPresent(f))
      && ((InvalidRole in errors) <==> !KnownRole(f.role))
      && ((InvalidEmailFormat in errors) <==> !emailValid)
      && ((PasswordsDiffer in errors) <==> f.password != f.cpassword)
      && ((PasswordTooShort in errors) <==> |f.password| < MinPasswordLength)
      && ((EmailTaken in errors) <==> EmailInUse(users, f.email))
      && (errors == [] <==> RegistrationAcceptable(users, f, emailValid))
  {
    PiecesListFailures(!AllFieldsPresent(f), !KnownRole(f.role), !emailValid, f.password != f.cpassword,
                       |f.password| < MinPasswordLength, EmailInUse(users, f.email));
  }

  /** One more check, of rank `top + 1`, keeps the messages in check order. */
  lemma ExtendInOrder(errors: seq<RegError>, top: int, failed: bool, e: RegError) returns (errors': seq<RegError>)
    requires Ascending(errors, -1, top) && e.Rank() == top + 1
    ensures errors' == errors + IfFailed(failed, e)
    ensures Ascending(errors', -1, top + 1)
  {
    errors' := errors + IfFailed(failed, e);
    if failed {
      AscendingSnoc(errors, -1, top, e);
    } else {
      assert errors' == errors;
      AscendingRaise(errors, -1, top, top + 1);
    }
  }

  /** The messages come in check order. */
  lemma ExpectedErrorsInOrder(users: seq<UserMaster>, f: RegistrationForm, emailValid: bool)
    ensures InCheckOrder(ExpectedErrors(users, f, emailValid))
  {
    var e := IfFailed(!AllFieldsPresent(f), FieldsRequired);
    assert Ascending(e, -1, 0);
    e := ExtendInOrder(e, 0, !KnownRole(f.role), InvalidRole);
    e := ExtendInOrder(e, 1, !emailValid, InvalidEmailFormat);
    e := ExtendInOrder(e, 2, f.password != f.cpassword, PasswordsDiffer);
    e := ExtendInOrder(e, 3, |f.password| < MinPasswordLength, PasswordTooShort);
    e := ExtendInOrder(e, 4, EmailInUse(users, f.email), EmailTaken);
  }

  /**
   * The `errors` list RegisterUser builds: one message per failed check, in
   * check order; registration goes ahead only when it is empty.
   */
  method RegistrationErrors(users: seq<UserMaster>, f: RegistrationForm, emailValid: bool)
    returns (errors: seq<RegError>)
    ensures errors == ExpectedErrors(users, f, emailValid)
    ensures (FieldsRequired in errors) <==> !AllFieldsPresent(f)
    ensures (InvalidRole in errors) <==> !KnownRole(f.role)
    ensures (InvalidEmailFormat in errors) <==> !emailValid
    ensures (PasswordsDiffer in errors) <==> f.password != f.cpassword
    ensures (PasswordTooShort in errors) <==> |f.password| < MinPasswordLength
    ensures (EmailTaken in errors) <==> EmailInUse(users, f.email)
    ensures InCheckOrder(errors)
    ensures errors == [] <==> RegistrationAcceptable(users, f, emailValid)
  {
    errors := [];
    if !AllFieldsPresent(f) {
      errors := errors + [FieldsRequired];
    }
    assert errors == IfFailed(!AllFieldsPresent(f), FieldsRequired);
    if !KnownRole(f.role) {
      errors := errors + [InvalidRole];
    }
    assert errors == IfFailed(!AllFieldsPresent(f), FieldsRequired) + IfFailed(!KnownRole(f.role), InvalidRole);
    if !emailValid {
      errors := errors + [InvalidEmailFormat];
    }
    assert errors == IfFailed(!AllFieldsPresent(f), FieldsRequired) + IfFailed(!KnownRole(f.role), InvalidRole)
      + IfFailed(!emailValid, InvalidEmailFormat);
    if f.password != f.cpassword {
      errors := errors + [PasswordsDiffer];
    }
    assert errors == IfFailed(!AllFieldsPresent(f), FieldsRequired) + IfFailed(!KnownRole(f.role), InvalidRole)
      + IfFailed(!emailValid, InvalidEmailFormat) + IfFailed(f.password != f.cpassword, PasswordsDiffer);
    if |f.password| < MinPasswordLength {
      errors := errors + [PasswordTooShort];
    }
    assert errors == IfFailed(!AllFieldsPresent(f), FieldsRequired) + IfFailed(!KnownRole(f.role), InvalidRole)
      + IfFailed(!emailValid, InvalidEmailFormat) + IfFailed(f.password != f.cpassword, PasswordsDiffer)
      + IfFailed(|f.password| < MinPasswordLength, PasswordTooShort);
    if f.email in Emails(users) {
      errors := errors + [EmailTaken];
    }
    assert errors == ExpectedErrors(users, f, emailValid);
    ExpectedErrorsListFailures(users, f, emailValid);
    ExpectedErrorsInOrder(users, f, emailValid);
  }

  /** The company name of a new employer: the submitted one, or "<fname> <lname> Company" when blank. */
  function CompanyNameOrDefault(f: RegistrationForm): (name: string)
    ensures name != ""
    ensures f.companyName != "" ==> name == f.companyName
    ensures f.companyName == "" ==> name == f.fname + " " + f.lname + " Company"
  {
    if f.companyName != "" then f.companyName else f.fname + " " + f.lname + " Company"
  }

  // ------------------------------------------------------- job posting form

  datatype JobForm = JobForm(
    title: string,
    description: string,
    location: string,
    jobType: string,
    experienceRequired: string,
    salary: string,
    requirements: string,
    skillsRequired: string,
    responsibilities: string,
    benefits: string)

  predicate RequiredJobFields(f: JobForm) {
    f.title != "" && f.description != "" && f.location != "" && f.jobType != ""
  }

  /**
   * `int(request.POST.get('vacancies', 1))`, clamped to at least 1; a value
   * that is not an integer also becomes 1. `None` is an absent field.
   */
  function NormaliseVacancies(field: Option<string>): (v: int)
    ensures v >= 1
    ensures field.Some? && ParseInt(field.value).Some? && ParseInt(field.value).value >= 1 ==>
              v == ParseInt(field.value).value
    ensures field.None? || ParseInt(field.value).None? || ParseInt(field.value).value < 1 ==> v == 1
  {
    match field
    case None => 1
    case Some(text) =>
      match ParseInt(text)
      case None => 1
      case Some(n) => if n < 1 then 1 else n
  }

  datatype DeadlineCheck = PastDeadline | Deadline(date: Option<Date>)

  /**
   * The application-deadline field: empty gives no deadline, text that
   * `strptime(_, '%Y-%m-%d')` cannot read (`parsed == None`) gives no
   * deadline, a date before `today` is refused, any other date is kept.
   */
  function CheckDeadline(field: string, parsed: Option<Date>, today: Date): (r: DeadlineCheck)
    ensures r == PastDeadline <==> field != "" && parsed.Some? && Before(parsed.value, today)
    ensures r.Deadline? && r.date.Some? ==> field != "" && parsed == r.date && !Before(r.date.value, today)
    ensures r.Deadline? && r.date.None? ==> field == "" || parsed.None?
  {
    if field == "" then Deadline(None)
    else match parsed
      case None => Deadline(None)
      case Some(d) => if Before(d, today) then PastDeadline else Deadline(Some(d))
  }

  /** The row `post_job` creates for a company's form. */
  function PostedJob(companyId: nat, companyName: string, f: JobForm, vacancies: int, deadline: Option<Date>): (j: Job)
    ensures j.company == Some(companyId) && j.companyName == companyName
    ensures j.isActive && !j.isFeatured && j.viewsCount == 0
    ensures j.vacancies == vacancies && j.applicationDeadline == deadline
    ensures j.title == f.title && j.description == f.description && j.location == f.location
    ensures j.jobType == f.jobType && j.experienceRequired == f.experienceRequired
    ensures j.salary == Some(f.salary) && j.requirements == Some(f.requirements)
    ensures j.skillsRequired == Some(f.skillsRequired) && j.responsibilities == Some(f.responsibilities)
    ensures j.benefits == Some(f.benefits)
  {
    NewJob(Some(companyId), f.title, companyName, f.description, f.location, f.jobType).(
      experienceRequired := f.experienceRequired,
      salary := Some(f.salary),
      requirements := Some(f.requirements),
      skillsRequired := Some(f.skillsRequired),
      responsibilities := Some(f.responsibilities),
      benefits := Some(f.benefits),
      vacancies := vacancies,
      applicationDeadline := deadline)
  }

  /** `edit_job`'s field updates: the owner, company name, flags and counter are untouched. */
  function EditedJob(j: Job, f: JobForm, vacancies: int, deadline: Option<Date>): (e: Job)
    ensures e.company == j.company && e.companyName == j.companyName
    ensures e.isActive == j.isActive && e.isFeatured == j.isFeatured && e.viewsCount == j.viewsCount
    ensures e.vacancies == vacancies && e.applicationDeadline == deadline
    ensures e.title == f.title && e.description == f.description && e.location == f.location
    ensures e.jobType == f.jobType && e.experienceRequired == f.experienceRequired
    ensures e.salary == Some(f.salary) && e.requirements == Some(f.requirements)
    ensures e.skillsRequired == Some(f.skillsRequired) && e.responsibilities == Some(f.responsibilities)
    ensures e.benefits == Some(f.benefits)
  {
    j.(title := f.title, description := f.description, location := f.location,
       jobType := f.jobType, experienceRequired := f.experienceRequired,
       salary := Some(f.salary), requirements := Some(f.requirements),
       skillsRequired := Some(f.skillsRequired), responsibilities := Some(f.responsibilities),
       benefits := Some(f.benefits), vacancies := vacancies, applicationDeadline := deadline)
  }

  // ---------------------------------------------------------------- bookmarks

  /** `get_or_create` followed by `delete` when the row existed: a toggle of one pair. */
  function Toggle(pairs: set<SavedJob>, p: SavedJob): (r: set<SavedJob>)
    ensures p in r <==> p !in pairs
    ensures forall q :: q != p ==> (q in r <==> q in pairs)
  {
    if p in pairs then pairs - {p} else pairs + {p}
  }

  lemma ToggleTwice(pairs: set<SavedJob>, p: SavedJob)
    ensures Toggle(Toggle(pairs, p), p) == pairs
  {
  }
}
